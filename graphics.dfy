/**
 * The per-frame command recorder `Graphics` (src/graphics.rs).
 *
 * User code calls the drawing methods; each appends at most one command to
 * the frame's list, after normalising its arguments: a pixel with a negative
 * coordinate is dropped, a line wholly left of or wholly above the canvas is
 * dropped, and a rectangle is cut at the top and left canvas edges and
 * dropped when nothing is left of it. The rasterizer later applies the list
 * in order (module `Rendering`).
 */
module Recorder {
  import opened Wrappers
  import opened Vectors
  import opened Colors
  import opened Commands
  import opened Frame
  import Lines
  import Rects
  import Glyphs
  import Rendering

  /** The command `pixel(x, y, c)` records, if any. */
  function PixelCommand(x: int, y: int, c: Color): (r: Option<DrawCommand>)
    ensures r.Some? <==> x >= 0 && y >= 0
    ensures r.Some? ==> r.value == Pixel(Vec2(x, y), c)
  {
    if x < 0 || y < 0 then None else Some(Pixel(Vec2(x, y), c))
  }

  /** The command `line(x0, y0, x1, y1, c)` records, if any. */
  function LineCommand(x0: int, y0: int, x1: int, y1: int, c: Color): (r: Option<DrawCommand>)
    ensures r.None? <==> (x0 < 0 && x1 < 0) || (y0 < 0 && y1 < 0)
    ensures r.Some? ==> r.value == Line(Vec2(x0, y0), Vec2(x1, y1), c)
  {
    if x0 < 0 && x1 < 0 then None
    else if y0 < 0 && y1 < 0 then None
    else Some(Line(Vec2(x0, y0), Vec2(x1, y1), c))
  }

  /**
   * The command `rect(x, y, w, h, c)` records, if any: the part of the
   * rectangle `[x, x + w) x [y, y + h)` at non-negative coordinates, kept
   * only when it is not empty.
   */
  function RectCommand(x: int, y: int, w: int, h: int, c: Color): (r: Option<DrawCommand>)
    ensures r.Some? <==> x + w > 0 && w > 0 && y + h > 0 && h > 0
    ensures r.Some? ==> && r.value.Rect? && r.value.color == c
                        && r.value.pos.x == ClampToZero(x) && r.value.pos.y == ClampToZero(y)
                        && r.value.pos.x + r.value.size.x == x + w
                        && r.value.pos.y + r.value.size.y == y + h
                        && r.value.size.x > 0 && r.value.size.y > 0
  {
    var (rx, rw) := if x < 0 then (0, w + x) else (x, w);
    var (ry, rh) := if y < 0 then (0, h + y) else (y, h);
    if rw > 0 && rh > 0 then Some(Rect(Vec2(rx, ry), Vec2(rw, rh), c)) else None
  }

  /**
   * Recording a pixel and rendering it sets exactly pixel `(x, y)`, and
   * nothing when a coordinate is negative: without the guard, the
   * rasterizer would clamp the coordinate to 0 and draw on the canvas edge.
   */
  lemma PixelRecorded(w: nat, h: nat, font: seq<Glyphs.Glyph>, s: seq<bv8>, x: int, y: int, c: Color, q: Point)
    requires |s| == w * h * 4 && InCanvas(w, h, q)
    ensures PixelAt(w, h, Rendering.Render(w, h, font, s, PixelCommand(x, y, c).ToSeq()), q) ==
      if q == (x, y) then Bytes(c) else PixelAt(w, h, s, q)
  {
    if x >= 0 && y >= 0 {
      assert Rendering.Render(w, h, font, s, PixelCommand(x, y, c).ToSeq()) == Plot(w, h, s, (x, y), c);
      PlotPixel(w, h, s, (x, y), c, q);
    }
  }

  /** Dropping a line is invisible: the frame is the one the full line would have drawn. */
  lemma LineRejectInvisible(w: nat, h: nat, font: seq<Glyphs.Glyph>, s: seq<bv8>, x0: int, y0: int, x1: int, y1: int, c: Color)
    requires |s| == w * h * 4
    ensures Rendering.Render(w, h, font, s, LineCommand(x0, y0, x1, y1, c).ToSeq()) ==
      Lines.PaintLine(w, h, s, Vec2(x0, y0), Vec2(x1, y1), c)
  {
    if LineCommand(x0, y0, x1, y1, c).None? {
      Lines.OffCanvasLineInvisible(w, h, s, Vec2(x0, y0), Vec2(x1, y1), c);
    } else {
      assert Rendering.Render(w, h, font, s, LineCommand(x0, y0, x1, y1, c).ToSeq()) ==
        Rendering.Apply(w, h, font, s, Line(Vec2(x0, y0), Vec2(x1, y1), c));
    }
  }

  /**
   * Recording a rectangle and rendering it sets exactly the in-canvas pixels
   * of `[x, x + w) x [y, y + h)`, for any position and any size, and leaves
   * every other pixel unchanged.
   */
  lemma RectRecordedCoverage(w: nat, h: nat, font: seq<Glyphs.Glyph>, s: seq<bv8>, x: int, y: int, rw: int, rh: int, c: Color, q: Point)
    requires |s| == w * h * 4 && InCanvas(w, h, q)
    requires w <= U32_MAX && h <= U32_MAX
    ensures PixelAt(w, h, Rendering.Render(w, h, font, s, RectCommand(x, y, rw, rh, c).ToSeq()), q) ==
      if x <= q.0 < x + rw && y <= q.1 < y + rh then Bytes(c) else PixelAt(w, h, s, q)
  {
    var r := RectCommand(x, y, rw, rh, c);
    if r.Some? {
      assert Rendering.Render(w, h, font, s, r.ToSeq()) == Rects.FillRect(w, h, s, r.value.pos, r.value.size, c);
      Rects.RectPixels(w, h, s, r.value.pos, r.value.size, c, q);
    }
  }

  /** The recorder of one frame's commands, with the sizes it was created for. */
  class Graphics {
    var commands: seq<DrawCommand>
    const logicWidth: nat
    const logicHeight: nat
    const windowWidth: nat
    const windowHeight: nat

    /** `Graphics::new`: an empty list and the logical and physical sizes. */
    constructor(logicalWidth: nat, logicalHeight: nat, physicalWidth: nat, physicalHeight: nat)
      ensures commands == []
      ensures logicWidth == logicalWidth && logicHeight == logicalHeight
      ensures windowWidth == physicalWidth && windowHeight == physicalHeight
    {
      commands := [];
      logicWidth, logicHeight := logicalWidth, logicalHeight;
      windowWidth, windowHeight := physicalWidth, physicalHeight;
    }

    /** `begin_frame`: the previous frame's commands are discarded. */
    method BeginFrame()
      modifies this
      ensures commands == []
    {
      commands := [];
    }

    /** `commands`: the list recorded so far, in call order. */
    method Commands() returns (r: seq<DrawCommand>)
      ensures r == commands
    {
      r := commands;
    }

    /** `logical_size`: the size of the drawing surface, as given at creation. */
    method LogicalSize() returns (w: nat, h: nat)
      ensures w == logicWidth && h == logicHeight
    {
      w, h := logicWidth, logicHeight;
    }

    /** `window_size`: the physical window size, as given at creation. */
    method WindowSize() returns (w: nat, h: nat)
      ensures w == windowWidth && h == windowHeight
    {
      w, h := windowWidth, windowHeight;
    }

    /** `clear`: always recorded. */
    method Clear(color: Color)
      modifies this
      ensures commands == old(commands) + [DrawCommand.Clear(color)]
    {
      commands := commands + [DrawCommand.Clear(color)];
    }

    /** `pixel`: returns early on a negative coordinate. */
    method Pixel(x: int, y: int, color: Color)
      modifies this
      ensures commands == old(commands) + PixelCommand(x, y, color).ToSeq()
    {
      if x < 0 || y < 0 {
        return;
      }
      commands := commands + [DrawCommand.Pixel(Vec2(x, y), color)];
    }

    /** `line`: returns early when both ends are left of, or both above, the canvas. */
    method Line(x0: int, y0: int, x1: int, y1: int, color: Color)
      modifies this
      ensures commands == old(commands) + LineCommand(x0, y0, x1, y1, color).ToSeq()
    {
      if x0 < 0 && x1 < 0 {
        return;
      }
      if y0 < 0 && y1 < 0 {
        return;
      }
      commands := commands + [DrawCommand.Line(Vec2(x0, y0), Vec2(x1, y1), color)];
    }

    /** `rect`: a negative start shrinks the size by the part off the canvas. */
    method Rect(x: int, y: int, w: int, h: int, color: Color)
      modifies this
      ensures commands == old(commands) + RectCommand(x, y, w, h, color).ToSeq()
    {
      var rx, ry, rw, rh := x, y, w, h;
      if rx < 0 {
        rw := rw + rx;
        rx := 0;
      }
      if ry < 0 {
        rh := rh + ry;
        ry := 0;
      }
      if rw > 0 && rh > 0 {
        commands := commands + [DrawCommand.Rect(Vec2(rx, ry), Vec2(rw, rh), color)];
      }
    }

    /** `triangle`: always recorded. */
    method Triangle(x1: int, y1: int, x2: int, y2: int, x3: int, y3: int, color: Color)
      modifies this
      ensures commands == old(commands) + [DrawCommand.Triangle(Vec2(x1, y1), Vec2(x2, y2), Vec2(x3, y3), color)]
    {
      commands := commands + [DrawCommand.Triangle(Vec2(x1, y1), Vec2(x2, y2), Vec2(x3, y3), color)];
    }

    /** `text`: always recorded, with its own copy of the string. */
    method Text(x: int, y: int, text: string, color: Color)
      modifies this
      ensures commands == old(commands) + [DrawCommand.Text(Vec2(x, y), text, color)]
    {
      commands := commands + [DrawCommand.Text(Vec2(x, y), text, color)];
    }
  }
}

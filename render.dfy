/**
 * The effect of a whole command list on the frame (the command loop of
 * `PixelsBackend::render`, src/backends/pixels.rs): commands are applied in
 * list order, so a later write to a pixel wins.
 */
module Rendering {
  import opened Vectors
  import opened Colors
  import opened Commands
  import opened Frame
  import opened Lines
  import opened Circles
  import opened Rects
  import opened Glyphs

  /** `draw_triangle`: the outline `p1 -> p2`, then `p2 -> p3`, then `p3 -> p1`. */
  function PaintTriangle(w: nat, h: nat, s: seq<bv8>, p1: Vec2, p2: Vec2, p3: Vec2, c: Color): (r: seq<bv8>)
    requires |s| == w * h * 4
    ensures |r| == |s|
  {
    PaintLine(w, h, PaintLine(w, h, PaintLine(w, h, s, p1, p2, c), p2, p3, c), p3, p1, c)
  }

  /** The effect of one command; `Pixel` takes negative coordinates as 0 before `set_pixel`. */
  function Apply(w: nat, h: nat, font: seq<Glyph>, s: seq<bv8>, cmd: DrawCommand): (r: seq<bv8>)
    requires |s| == w * h * 4
    ensures |r| == |s|
  {
    match cmd
    case Clear(c) => Cleared(|s|, c)
    case Pixel(pos, c) => Plot(w, h, s, AsU32Tuple(pos), c)
    case Circle(center, radius, c) => PaintCircle(w, h, s, center, radius, c)
    case Rect(pos, size, c) => FillRect(w, h, s, pos, size, c)
    case Text(pos, text, c) => PaintText(w, h, font, s, pos, text, c)
    case Line(p1, p2, c) => PaintLine(w, h, s, p1, p2, c)
    case Triangle(p1, p2, p3, c) => PaintTriangle(w, h, s, p1, p2, p3, c)
  }

  /** The commands applied one after the other, first to last. */
  function Render(w: nat, h: nat, font: seq<Glyph>, s: seq<bv8>, cmds: seq<DrawCommand>): (r: seq<bv8>)
    requires |s| == w * h * 4
    ensures |r| == |s|
    decreases |cmds|
  {
    if cmds == [] then s else Render(w, h, font, Apply(w, h, font, s, cmds[0]), cmds[1..])
  }

  /** Rendering `a + b` is rendering `a`, then `b` on the result; the empty list changes nothing. */
  lemma {:induction false} RenderAppend(w: nat, h: nat, font: seq<Glyph>, s: seq<bv8>, a: seq<DrawCommand>, b: seq<DrawCommand>)
    requires |s| == w * h * 4
    ensures Render(w, h, font, s, []) == s
    ensures Render(w, h, font, s, a + b) == Render(w, h, font, Render(w, h, font, s, a), b)
    decreases |a|
  {
    if a == [] {
      assert a + b == b;
    } else {
      assert (a + b)[0] == a[0];
      assert (a + b)[1..] == a[1..] + b;
      RenderAppend(w, h, font, Apply(w, h, font, s, a[0]), a[1..], b);
    }
  }

  /** A `Pixel` command after any list of commands decides that pixel: the later write wins. */
  lemma LastPixelWins(w: nat, h: nat, font: seq<Glyph>, s: seq<bv8>, cmds: seq<DrawCommand>, pos: Vec2, c: Color)
    requires |s| == w * h * 4 && InCanvas(w, h, AsU32Tuple(pos))
    ensures PixelAt(w, h, Render(w, h, font, s, cmds + [Pixel(pos, c)]), AsU32Tuple(pos)) == Bytes(c)
  {
    RenderAppend(w, h, font, s, cmds, [Pixel(pos, c)]);
    var before := Render(w, h, font, s, cmds);
    assert Render(w, h, font, before, [Pixel(pos, c)]) == Plot(w, h, before, AsU32Tuple(pos), c);
    PlotPixel(w, h, before, AsU32Tuple(pos), c, AsU32Tuple(pos));
  }

  /** A trailing `Clear` erases the effect of every earlier command. */
  lemma LastClearWins(w: nat, h: nat, font: seq<Glyph>, s: seq<bv8>, cmds: seq<DrawCommand>, c: Color)
    requires |s| == w * h * 4
    ensures Render(w, h, font, s, cmds + [Clear(c)]) == Cleared(|s|, c)
  {
    RenderAppend(w, h, font, s, cmds, [Clear(c)]);
  }

  /**
   * `draw_triangle` sets an in-canvas pixel to `c` exactly when one of the
   * three edges visits it, and leaves every other pixel unchanged.
   */
  lemma TrianglePixels(w: nat, h: nat, s: seq<bv8>, p1: Vec2, p2: Vec2, p3: Vec2, c: Color, q: Point)
    requires |s| == w * h * 4 && InCanvas(w, h, q)
    ensures PixelAt(w, h, PaintTriangle(w, h, s, p1, p2, p3, c), q) ==
      if q in LinePoints(p1, p2) || q in LinePoints(p2, p3) || q in LinePoints(p3, p1)
      then Bytes(c) else PixelAt(w, h, s, q)
    ensures q == (p1.x, p1.y) || q == (p2.x, p2.y) || q == (p3.x, p3.y) ==>
      PixelAt(w, h, PaintTriangle(w, h, s, p1, p2, p3, c), q) == Bytes(c)
  {
    var s1 := PaintLine(w, h, s, p1, p2, c);
    var s2 := PaintLine(w, h, s1, p2, p3, c);
    PaintPixel(w, h, s, LinePoints(p1, p2), c, q);
    PaintPixel(w, h, s1, LinePoints(p2, p3), c, q);
    PaintPixel(w, h, s2, LinePoints(p3, p1), c, q);
    var l1, l2, l3 := LinePoints(p1, p2), LinePoints(p2, p3), LinePoints(p3, p1);
    assert l1[0] in l1 && l2[0] in l2 && l3[0] in l3;
  }
}

/**
 * The software rasterizer `PixelsBackend` (src/backends/pixels.rs) as a class
 * over its frame, a byte array of `logicWidth * logicHeight * 4` bytes that
 * the drawing methods overwrite in place. Each method is proved to leave the
 * frame equal to its specification function applied to the old frame.
 */
module Backend {
  import opened Vectors
  import opened Colors
  import opened Commands
  import opened Frame
  import opened Lines
  import opened Circles
  import opened Rects
  import opened Glyphs
  import Rendering

  /** `set_pixel`'s byte offset `(y * w + x) * 4` is where `Plot` writes. */
  lemma PixelOffset(w: nat, h: nat, s: seq<bv8>, x: nat, y: nat, idx: int, c: Color)
    requires |s| == w * h * 4 && x < w && y < h && idx == (y * w + x) * 4
    ensures 0 <= idx && idx + 4 <= |s|
    ensures Plot(w, h, s, (x, y), c) == Put(s, idx, c)
  {
    PixelIndexBounds(w, h, (x, y));
    assert idx == 4 * PixelIndex(w, (x, y));
  }

  /** One more chunk of a partly cleared frame. */
  lemma ClearStep(s0: seq<bv8>, s: seq<bv8>, t: seq<bv8>, i: nat, next: nat, c: Color)
    requires 4 * i + 4 <= |s0| && next == i + 1
    requires s == Cleared(4 * i, c) + s0[4 * i..]
    requires t == Put(s, 4 * i, c)
    ensures t == Cleared(4 * next, c) + s0[4 * next..]
  {
    var u := Cleared(4 * next, c) + s0[4 * next..];
    PutBytes(s, 4 * i, c);
    assert |t| == |u|;
    forall k | 0 <= k < |t|
      ensures t[k] == u[k]
    {
      if 4 * i <= k < 4 * i + 4 {
        assert k - 4 * i == k % 4;
      }
    }
  }

  /** The byte offset of chunk `j` of row `row`, counted from column `x0`, lies inside the frame. */
  lemma ChunkBounds(w: nat, h: nat, row: nat, x0: nat, j: nat, offset: int)
    requires row < h && x0 + j < w && offset == (row * w + x0) * 4
    ensures 0 <= offset + 4 * j && offset + 4 * j + 4 <= w * h * 4
  {
    PixelIndexBounds(w, h, (x0 + j, row));
  }

  /** Writing chunk `k` of a row extends the painted row by one point. */
  lemma RowStep(w: nat, h: nat, s1: seq<bv8>, s: seq<bv8>, t: seq<bv8>, row: nat, x0: nat, k: nat, next: nat, at: int, c: Color)
    requires |s1| == w * h * 4 && row < h && x0 + k < w && next == k + 1
    requires at == (row * w + x0) * 4 + 4 * k
    requires s == Paint(w, h, s1, RowPoints(row, x0, x0 + k), c)
    requires 0 <= at && at + 4 <= |s| && t == Put(s, at, c)
    ensures t == Paint(w, h, s1, RowPoints(row, x0, x0 + next), c)
  {
    var p := (x0 + k, row);
    PixelOffset(w, h, s, x0 + k, row, at, c);
    assert RowPoints(row, x0, x0 + next) == RowPoints(row, x0, x0 + k) + [p];
    PaintSnoc(w, h, s1, RowPoints(row, x0, x0 + k), p, c);
  }

  /** A finished row extends the painted region by one row. */
  lemma RegionStep(w: nat, h: nat, s0: seq<bv8>, s1: seq<bv8>, s: seq<bv8>, x0: nat, x1: nat, y0: nat, r: nat, next: nat, n: nat, c: Color)
    requires |s0| == w * h * 4 && y0 <= r && next == r + 1 && x0 + n == x1
    requires s1 == Paint(w, h, s0, RegionPoints(x0, x1, y0, r), c)
    requires s == Paint(w, h, s1, RowPoints(r, x0, x0 + n), c)
    ensures s == Paint(w, h, s0, RegionPoints(x0, x1, y0, next), c)
  {
    PaintAppend(w, h, s0, RegionPoints(x0, x1, y0, r), RowPoints(r, x0, x1), c);
  }

  /**
   * One iteration of `draw_line` that does not stop: the pixel at the cursor
   * is written and the cursor moves to `(nx, ny, ne)`, the loop's update.
   */
  lemma LineLoopStep(w: nat, h: nat, b: Bresenham, cur: Cursor, stepX: bool, stepY: bool, nx: int, ny: int, ne: int,
                     s: seq<bv8>, t: seq<bv8>, goal: seq<bv8>, c: Color)
    requires |s| == w * h * 4 && LineInv(b, cur) && !AtEnd(b, cur)
    requires Paint(w, h, s, LinePointsFrom(b, cur), c) == goal
    requires t == Plot(w, h, s, (cur.x, cur.y), c)
    requires stepX == (2 * cur.err >= b.dy) && stepY == (2 * cur.err <= b.dx)
    requires nx == if stepX then cur.x + b.sx else cur.x
    requires ny == if stepY then cur.y + b.sy else cur.y
    requires ne == cur.err + (if stepX then b.dy else 0) + (if stepY then b.dx else 0)
    ensures LineInv(b, Cursor(nx, ny, ne))
    ensures Paint(w, h, t, LinePointsFrom(b, Cursor(nx, ny, ne)), c) == goal
    ensures RemX(b, Cursor(nx, ny, ne)) + RemY(b, Cursor(nx, ny, ne)) < RemX(b, cur) + RemY(b, cur)
  {
    assert LineStep(b, cur) == Cursor(nx, ny, ne);
    LineStepKeepsInv(b, cur);
    LinePointsFromStep(b, cur);
  }

  /** The last iteration of `draw_line`: the end point is written and the goal is reached. */
  lemma LineLastStep(w: nat, h: nat, b: Bresenham, cur: Cursor, s: seq<bv8>, t: seq<bv8>, goal: seq<bv8>, c: Color)
    requires |s| == w * h * 4 && LineInv(b, cur) && AtEnd(b, cur)
    requires Paint(w, h, s, LinePointsFrom(b, cur), c) == goal
    requires t == Plot(w, h, s, (cur.x, cur.y), c)
    ensures t == goal
  {
    assert LinePointsFrom(b, cur) == [(cur.x, cur.y)];
  }

  /** Writing point `k` of a list leaves the rest to paint. */
  lemma PointStep(w: nat, h: nat, pts: seq<Point>, k: nat, next: nat, s: seq<bv8>, t: seq<bv8>, c: Color)
    requires |s| == w * h * 4 && k < |pts| && next == k + 1
    requires t == Plot(w, h, s, pts[k], c)
    ensures Paint(w, h, t, pts[next..], c) == Paint(w, h, s, pts[k..], c)
  {
    assert pts[k..][0] == pts[k] && pts[k..][1..] == pts[next..];
  }

  /** Every point of a list written. */
  lemma PointsDone(w: nat, h: nat, pts: seq<Point>, k: nat, s: seq<bv8>, s0: seq<bv8>, c: Color)
    requires |s| == w * h * 4 && |s0| == |s| && k == |pts|
    requires Paint(w, h, s, pts[k..], c) == Paint(w, h, s0, pts, c)
    ensures s == Paint(w, h, s0, pts, c)
  {
    assert pts[k..] == [];
  }

  /** One iteration of `draw_circle`: the eight points are written and the state moves to `(nx, ny, ne)`. */
  lemma CircleLoopStep(w: nat, h: nat, cx: int, cy: int, m: Midpoint, nx: int, ny: int, e1: int, ne: int,
                       s0: seq<bv8>, s: seq<bv8>, goal: seq<bv8>, c: Color)
    requires |s0| == w * h * 4 && 0 <= m.y && m.x >= m.y
    requires Paint(w, h, s0, CirclePointsFrom(cx, cy, m), c) == goal
    requires s == Paint(w, h, s0, Octants(cx, cy, m.x, m.y), c)
    requires ny == m.y + 1
    requires e1 == if m.err <= 0 then m.err + 2 * ny + 1 else m.err
    requires nx == if e1 > 0 then m.x - 1 else m.x
    requires ne == if e1 > 0 then e1 - 2 * nx - 1 else e1
    ensures Paint(w, h, s, CirclePointsFrom(cx, cy, Midpoint(nx, ny, ne)), c) == goal
  {
    assert CircleStep(m) == Midpoint(nx, ny, ne);
    PaintAppend(w, h, s0, Octants(cx, cy, m.x, m.y), CirclePointsFrom(cx, cy, CircleStep(m)), c);
  }

  /** Column `k` of a glyph row: its pixel is written exactly when its bit is set. */
  lemma BitStep(w: nat, h: nat, bits: bv8, cx: int, py: int, k: nat, next: nat, px: int,
                sRow: seq<bv8>, s: seq<bv8>, t: seq<bv8>, c: Color)
    requires |sRow| == w * h * 4 && k < 8 && next == k + 1 && px == cx + k
    requires s == Paint(w, h, sRow, RowBits(bits, cx, py, k), c)
    requires t == if Bit(bits, k) then Plot(w, h, s, (px, py), c) else s
    ensures t == Paint(w, h, sRow, RowBits(bits, cx, py, next), c)
  {
    if Bit(bits, k) {
      assert RowBits(bits, cx, py, next) == RowBits(bits, cx, py, k) + [(px, py)];
      PaintSnoc(w, h, sRow, RowBits(bits, cx, py, k), (px, py), c);
    } else {
      assert RowBits(bits, cx, py, next) == RowBits(bits, cx, py, k);
    }
  }

  /** The glyph's points through row `r` are those before it and then row `r`'s set bits. */
  lemma GlyphPointsSnoc(g: Glyph, cx: int, cy: int, r: nat, next: nat, py: int)
    requires r < 8 && next == r + 1 && py == cy + r
    ensures GlyphPoints(g, cx, cy, next) == GlyphPoints(g, cx, cy, r) + RowBits(g[r], cx, py, 8)
  {
    assert next - 1 == r;
  }

  /** A finished glyph row extends the painted glyph by one row. */
  lemma GlyphRowStep(w: nat, h: nat, g: Glyph, cx: int, cy: int, r: nat, next: nat, n: nat, py: int,
                     sChar: seq<bv8>, sRow: seq<bv8>, s: seq<bv8>, c: Color)
    requires |sChar| == w * h * 4 && r < 8 && next == r + 1 && n == 8 && py == cy + r
    requires sRow == Paint(w, h, sChar, GlyphPoints(g, cx, cy, r), c)
    requires s == Paint(w, h, sRow, RowBits(g[r], cx, py, n), c)
    ensures s == Paint(w, h, sChar, GlyphPoints(g, cx, cy, next), c)
  {
    GlyphPointsSnoc(g, cx, cy, r, next, py);
    PaintAppend(w, h, sChar, GlyphPoints(g, cx, cy, r), RowBits(g[r], cx, py, 8), c);
  }

  /** The text's points through character `i` are those before it and then that character's. */
  lemma TextPointsSnoc(font: seq<Glyph>, x: int, y: int, text: string, i: nat, next: nat, cx: int)
    requires i < |text| && next == i + 1 && cx == x + ADVANCE * i
    ensures TextPoints(font, x, y, text[..next]) == TextPoints(font, x, y, text[..i]) + CharPoints(font, cx, y, text[i])
  {
    var t := text[..next];
    assert |t| - 1 == i;
    assert t[..i] == text[..i] && t[i] == text[i];
  }

  /** A finished character (drawn or skipped) extends the painted text by one character. */
  lemma TextCharStep(w: nat, h: nat, font: seq<Glyph>, x: int, y: int, text: string, i: nat, next: nat, cx: int,
                     s0: seq<bv8>, sPrev: seq<bv8>, s: seq<bv8>, c: Color)
    requires |s0| == w * h * 4 && i < |text| && next == i + 1 && cx == x + ADVANCE * i
    requires sPrev == Paint(w, h, s0, TextPoints(font, x, y, text[..i]), c)
    requires s == Paint(w, h, sPrev, CharPoints(font, cx, y, text[i]), c)
    ensures s == Paint(w, h, s0, TextPoints(font, x, y, text[..next]), c)
  {
    TextPointsSnoc(font, x, y, text, i, next, cx);
    PaintAppend(w, h, s0, TextPoints(font, x, y, text[..i]), CharPoints(font, cx, y, text[i]), c);
  }

  /** A glyph with all eight rows painted is the character's points. */
  lemma CharDone(w: nat, h: nat, font: seq<Glyph>, ch: char, g: Glyph, cx: int, cy: int, n: nat,
                 sChar: seq<bv8>, s: seq<bv8>, c: Color)
    requires |sChar| == w * h * 4 && ch as int < |font| && g == font[ch as int] && n == 8
    requires s == Paint(w, h, sChar, GlyphPoints(g, cx, cy, n), c)
    ensures s == Paint(w, h, sChar, CharPoints(font, cx, cy, ch), c)
  {
  }

  /** A skipped character paints nothing. */
  lemma CharSkipped(w: nat, h: nat, font: seq<Glyph>, ch: char, cx: int, cy: int, s: seq<bv8>, c: Color)
    requires |s| == w * h * 4 && ch as int >= |font|
    ensures s == Paint(w, h, s, CharPoints(font, cx, cy, ch), c)
  {
  }

  /** Applying command `i` leaves the rest of the list to render. */
  lemma RenderStep(w: nat, h: nat, font: seq<Glyph>, cmds: seq<DrawCommand>, i: nat, next: nat, s: seq<bv8>, t: seq<bv8>)
    requires |s| == w * h * 4 && i < |cmds| && next == i + 1
    requires t == Rendering.Apply(w, h, font, s, cmds[i])
    ensures Rendering.Render(w, h, font, t, cmds[next..]) == Rendering.Render(w, h, font, s, cmds[i..])
  {
    assert cmds[i..][0] == cmds[i] && cmds[i..][1..] == cmds[next..];
  }

  /** Every command applied. */
  lemma RenderDone(w: nat, h: nat, font: seq<Glyph>, cmds: seq<DrawCommand>, i: nat, s: seq<bv8>, goal: seq<bv8>)
    requires |s| == w * h * 4 && i == |cmds|
    requires Rendering.Render(w, h, font, s, cmds[i..]) == goal
    ensures s == goal
  {
    assert cmds[i..] == [];
  }

  class PixelsBackend {
    const logicWidth: nat
    const logicHeight: nat
    /** The 128-glyph table `FONT8X8_BASIC`. */
    const font: seq<Glyph>
    /** The logical pixel buffer (`pixels.frame_mut()`), RGBA per pixel, row-major. */
    const frame: array<bv8>

    predicate Valid()
    {
      && frame.Length == logicWidth * logicHeight * 4
      && logicWidth <= U32_MAX && logicHeight <= U32_MAX
      && |font| == 128
    }

    /** A backend with a zeroed frame of the given logical size. */
    constructor (width: nat, height: nat, table: seq<Glyph>)
      requires width <= U32_MAX && height <= U32_MAX && |table| == 128
      ensures Valid() && fresh(frame)
      ensures logicWidth == width && logicHeight == height && font == table
      ensures forall k :: 0 <= k < frame.Length ==> frame[k] == 0
    {
      logicWidth, logicHeight, font := width, height, table;
      frame := new bv8[width * height * 4](_ => 0);
    }

    /** Copies the colour's four bytes to `frame[at..at + 4]`. */
    method WriteColor(at: nat, c: Color)
      requires at + 4 <= frame.Length
      modifies frame
      ensures frame[..] == Put(old(frame[..]), at, c)
    {
      frame[at] := c.r;
      frame[at + 1] := c.g;
      frame[at + 2] := c.b;
      frame[at + 3] := c.a;
    }

    /** `set_pixel`: a bounds-checked write of one pixel. */
    method SetPixel(x: nat, y: nat, c: Color)
      requires Valid()
      modifies frame
      ensures frame[..] == Plot(logicWidth, logicHeight, old(frame[..]), (x, y), c)
    {
      if x >= logicWidth || y >= logicHeight {
        return;
      }
      var idx := (y * logicWidth + x) * 4;
      PixelOffset(logicWidth, logicHeight, frame[..], x, y, idx, c);
      WriteColor(idx, c);
    }

    /** `clear`: every four-byte chunk of the frame gets the colour. */
    method Clear(c: Color)
      requires Valid()
      modifies frame
      ensures frame[..] == Cleared(frame.Length, c)
    {
      ghost var s0 := frame[..];
      var chunks := logicWidth * logicHeight;
      var i := 0;
      while i < chunks
        invariant 0 <= i <= chunks
        invariant frame[..] == Cleared(4 * i, c) + s0[4 * i..]
      {
        ghost var before := frame[..];
        ghost var k := i;
        WriteColor(4 * i, c);
        i := i + 1;
        ClearStep(s0, before, frame[..], k, i, c);
      }
    }

    /** `draw_rect`: clamps the rectangle, then fills it row by row. */
    method DrawRect(pos: Vec2, size: Vec2, c: Color)
      requires Valid()
      modifies frame
      ensures frame[..] == FillRect(logicWidth, logicHeight, old(frame[..]), pos, size, c)
    {
      var (x, y) := AsU32Tuple(pos);
      var (w, h) := AsU32Tuple(size);
      var x2 := SaturatingAdd(x, w);
      var y2 := SaturatingAdd(y, h);
      var startX := Min(x, logicWidth);
      var startY := Min(y, logicHeight);
      var endX := Min(x2, logicWidth);
      var endY := Min(y2, logicHeight);
      assert Region(startX, endX, startY, endY) == RectRegion(logicWidth, logicHeight, pos, size);
      if startX >= endX || startY >= endY {
        return;
      }
      ghost var s0 := frame[..];
      var row := startY;
      while row < endY
        invariant startY <= row <= endY
        invariant frame[..] == Paint(logicWidth, logicHeight, s0, RegionPoints(startX, endX, startY, row), c)
      {
        var offset := (row * logicWidth + startX) * 4;
        var rowPixels := endX - startX;
        ghost var s1 := frame[..];
        var j := 0;
        while j < rowPixels
          invariant 0 <= j <= rowPixels
          invariant frame[..] == Paint(logicWidth, logicHeight, s1, RowPoints(row, startX, startX + j), c)
        {
          ghost var before := frame[..];
          ghost var k := j;
          ChunkBounds(logicWidth, logicHeight, row, startX, j, offset);
          WriteColor(offset + 4 * j, c);
          j := j + 1;
          RowStep(logicWidth, logicHeight, s1, before, frame[..], row, startX, k, j, offset + 4 * k, c);
        }
        ghost var r := row;
        row := row + 1;
        RegionStep(logicWidth, logicHeight, s0, s1, frame[..], startX, endX, startY, r, row, j, c);
      }
    }

    /** `draw_line`: integer Bresenham from `p1` until the current point equals `p2`. */
    method DrawLine(p1: Vec2, p2: Vec2, c: Color)
      requires Valid()
      modifies frame
      ensures frame[..] == PaintLine(logicWidth, logicHeight, old(frame[..]), p1, p2, c)
    {
      var x0, y0 := p1.x, p1.y;
      var x1, y1 := p2.x, p2.y;
      var dx := Abs(x1 - x0);
      var sx := if x0 < x1 then 1 else -1;
      var dy := -(Abs(y1 - y0) as int);
      var sy := if y0 < y1 then 1 else -1;
      var err := dx + dy;

      ghost var b := Bresenham(x1, y1, dx, dy, sx, sy);
      assert b == LineSetup(p1, p2) && Cursor(x0, y0, err) == LineStart(p1, p2);
      LineStartInv(p1, p2);
      ghost var goal := PaintLine(logicWidth, logicHeight, frame[..], p1, p2, c);
      while true
        invariant LineInv(b, Cursor(x0, y0, err))
        invariant Paint(logicWidth, logicHeight, frame[..], LinePointsFrom(b, Cursor(x0, y0, err)), c) == goal
        decreases RemX(b, Cursor(x0, y0, err)) + RemY(b, Cursor(x0, y0, err))
      {
        ghost var cur := Cursor(x0, y0, err);
        ghost var before := frame[..];
        if x0 >= 0 && y0 >= 0 && x0 < logicWidth && y0 < logicHeight {
          SetPixel(x0, y0, c);
        }
        assert frame[..] == Plot(logicWidth, logicHeight, before, (cur.x, cur.y), c);
        if x0 == x1 && y0 == y1 {
          LineLastStep(logicWidth, logicHeight, b, cur, before, frame[..], goal, c);
          break;
        }
        var e2 := 2 * err;
        ghost var stepX, stepY := e2 >= dy, e2 <= dx;
        if e2 >= dy {
          err := err + dy;
          x0 := x0 + sx;
        }
        if e2 <= dx {
          err := err + dx;
          y0 := y0 + sy;
        }
        LineLoopStep(logicWidth, logicHeight, b, cur, stepX, stepY, x0, y0, err, before, frame[..], goal, c);
      }
    }

    /** `draw_circle`: eight symmetric writes per step while `x >= y`. */
    method DrawCircle(center: Vec2, radius: int, c: Color)
      requires Valid()
      modifies frame
      ensures frame[..] == PaintCircle(logicWidth, logicHeight, old(frame[..]), center, radius, c)
    {
      var x := radius;
      var y := 0;
      var err := 0;
      ghost var goal := PaintCircle(logicWidth, logicHeight, frame[..], center, radius, c);
      while x >= y
        invariant 0 <= y
        invariant Paint(logicWidth, logicHeight, frame[..], CirclePointsFrom(center.x, center.y, Midpoint(x, y, err)), c) == goal
        decreases x - y + 1
      {
        ghost var m := Midpoint(x, y, err);
        ghost var s0 := frame[..];
        var pts := Octants(center.x, center.y, x, y);
        var k := 0;
        while k < 8
          invariant 0 <= k <= 8
          invariant Paint(logicWidth, logicHeight, frame[..], pts[k..], c) == Paint(logicWidth, logicHeight, s0, pts, c)
        {
          ghost var before := frame[..];
          var (px, py) := pts[k];
          assert (px, py) == pts[k];
          if px >= 0 && py >= 0 {
            SetPixel(px, py, c);
          }
          assert frame[..] == Plot(logicWidth, logicHeight, before, (px, py), c);
          ghost var kk := k;
          k := k + 1;
          PointStep(logicWidth, logicHeight, pts, kk, k, before, frame[..], c);
        }
        PointsDone(logicWidth, logicHeight, pts, k, frame[..], s0, c);
        y := y + 1;
        if err <= 0 {
          err := err + 2 * y + 1;
        }
        ghost var e1 := err;
        if err > 0 {
          x := x - 1;
          err := err - 2 * x - 1;
        }
        CircleLoopStep(logicWidth, logicHeight, center.x, center.y, m, x, y, e1, err, s0, frame[..], goal, c);
      }
    }

    /** `draw_triangle`: the three edges as lines, in order. */
    method DrawTriangle(p1: Vec2, p2: Vec2, p3: Vec2, c: Color)
      requires Valid()
      modifies frame
      ensures frame[..] == Rendering.PaintTriangle(logicWidth, logicHeight, old(frame[..]), p1, p2, p3, c)
    {
      DrawLine(p1, p2, c);
      DrawLine(p2, p3, c);
      DrawLine(p3, p1, c);
    }

    /** The inner loop of `draw_text`: the set bits of one glyph row, left to right, at row `py`. */
    method DrawGlyphRow(bits: bv8, cursorX: nat, py: nat, c: Color)
      requires Valid()
      modifies frame
      ensures frame[..] == Paint(logicWidth, logicHeight, old(frame[..]), RowBits(bits, cursorX, py, 8), c)
    {
      ghost var sRow := frame[..];
      var col := 0;
      while col < 8
        invariant 0 <= col <= 8
        invariant frame[..] == Paint(logicWidth, logicHeight, sRow, RowBits(bits, cursorX, py, col), c)
      {
        ghost var before := frame[..];
        var px := cursorX + col;
        if bits & (1 << col) != 0 {
          if px < logicWidth && py < logicHeight {
            SetPixel(px, py, c);
          }
          assert frame[..] == Plot(logicWidth, logicHeight, before, (px, py), c);
        }
        ghost var k := col;
        col := col + 1;
        BitStep(logicWidth, logicHeight, bits, cursorX, py, k, col, px, sRow, before, frame[..], c);
      }
    }

    /** The row loop of `draw_text`: the eight rows of one glyph, top to bottom. */
    method DrawGlyph(glyph: Glyph, cursorX: nat, cursorY: nat, c: Color)
      requires Valid()
      modifies frame
      ensures frame[..] == Paint(logicWidth, logicHeight, old(frame[..]), GlyphPoints(glyph, cursorX, cursorY, 8), c)
    {
      ghost var sChar := frame[..];
      var row := 0;
      while row < 8
        invariant 0 <= row <= 8
        invariant frame[..] == Paint(logicWidth, logicHeight, sChar, GlyphPoints(glyph, cursorX, cursorY, row), c)
      {
        ghost var sRow := frame[..];
        var py := cursorY + row;
        DrawGlyphRow(glyph[row], cursorX, py, c);
        ghost var r := row;
        row := row + 1;
        GlyphRowStep(logicWidth, logicHeight, glyph, cursorX, cursorY, r, row, 8, py, sChar, sRow, frame[..], c);
      }
    }

    /** `draw_text`: glyph bits blitted at the cursor, which advances by 8 per character. */
    method DrawText(pos: Vec2, text: string, c: Color)
      requires Valid()
      modifies frame
      ensures frame[..] == PaintText(logicWidth, logicHeight, font, old(frame[..]), pos, text, c)
    {
      var (x, y) := AsU32Tuple(pos);
      var cursorX := x;
      var cursorY := y;
      ghost var s0 := frame[..];
      var i := 0;
      while i < |text|
        invariant 0 <= i <= |text|
        invariant cursorX == x + ADVANCE * i
        invariant frame[..] == Paint(logicWidth, logicHeight, s0, TextPoints(font, x, y, text[..i]), c)
      {
        ghost var sPrev := frame[..];
        ghost var ii := i;
        ghost var cx := cursorX;
        var ch := text[i];
        var code := ch as int;
        if code >= |font| {
          CharSkipped(logicWidth, logicHeight, font, ch, cursorX, cursorY, frame[..], c);
          cursorX := cursorX + 8;
          i := i + 1;
          TextCharStep(logicWidth, logicHeight, font, x, y, text, ii, i, cx, s0, sPrev, frame[..], c);
          continue;
        }
        var glyph := font[code];
        DrawGlyph(glyph, cursorX, cursorY, c);
        CharDone(logicWidth, logicHeight, font, ch, glyph, cursorX, cursorY, 8, sPrev, frame[..], c);
        cursorX := cursorX + 8;
        i := i + 1;
        TextCharStep(logicWidth, logicHeight, font, x, y, text, ii, i, cx, s0, sPrev, frame[..], c);
      }
      assert text[..i] == text;
    }

    /** One arm of `render`'s dispatch: the drawing call for a single command. */
    method Execute(cmd: DrawCommand)
      requires Valid()
      modifies frame
      ensures frame[..] == Rendering.Apply(logicWidth, logicHeight, font, old(frame[..]), cmd)
    {
      match cmd
      case Clear(color) => Clear(color);
      case Pixel(pos, color) =>
        var (x, y) := AsU32Tuple(pos);
        assert (x, y) == AsU32Tuple(pos);
        SetPixel(x, y, color);
      case Circle(center, radius, color) => DrawCircle(center, radius, color);
      case Rect(pos, size, color) => DrawRect(pos, size, color);
      case Text(pos, text, color) => DrawText(pos, text, color);
      case Line(start, end, color) => DrawLine(start, end, color);
      case Triangle(p1, p2, p3, color) => DrawTriangle(p1, p2, p3, color);
    }

    /** The command loop of `render`: each command in list order. */
    method Render(commands: seq<DrawCommand>)
      requires Valid()
      modifies frame
      ensures frame[..] == Rendering.Render(logicWidth, logicHeight, font, old(frame[..]), commands)
    {
      ghost var goal := Rendering.Render(logicWidth, logicHeight, font, frame[..], commands);
      var i := 0;
      while i < |commands|
        invariant 0 <= i <= |commands|
        invariant Rendering.Render(logicWidth, logicHeight, font, frame[..], commands[i..]) == goal
        decreases |commands| - i
      {
        ghost var before := frame[..];
        Execute(commands[i]);
        ghost var k := i;
        i := i + 1;
        RenderStep(logicWidth, logicHeight, font, commands, k, i, before, frame[..]);
      }
      RenderDone(logicWidth, logicHeight, font, commands, i, frame[..], goal);
    }
  }
}

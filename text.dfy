/**
 * 8x8 bitmap text (`draw_text`, src/backends/pixels.rs).
 *
 * The glyph table `crate::text::FONT8X8_BASIC` lives in src/text.rs, which is
 * not part of this model: the table is a parameter here, a sequence of glyphs
 * of eight row bytes each, indexed by character code.
 */
module Glyphs {
  import opened Vectors
  import opened Colors
  import opened Frame

  type Glyph = g: seq<bv8> | |g| == 8 witness [0, 0, 0, 0, 0, 0, 0, 0]

  /** Fixed horizontal advance per character, in pixels. */
  const ADVANCE: int := 8

  /** Bit `col` of a glyph row: `byte & (1 << col) != 0`. */
  predicate Bit(b: bv8, col: nat)
    requires col < 8
  {
    b & (1 << col) != 0
  }

  /** The set bits among columns `0 .. n - 1` of row byte `b`, drawn at `(cx + col, py)`. */
  function RowBits(b: bv8, cx: int, py: int, n: nat): seq<Point>
    requires n <= 8
  {
    if n == 0 then [] else RowBits(b, cx, py, n - 1) + (if Bit(b, n - 1) then [(cx + n - 1, py)] else [])
  }

  /** A row writes exactly the points of its set bits. */
  lemma {:induction false} RowBitsCover(b: bv8, cx: int, py: int, n: nat)
    requires n <= 8
    ensures forall q :: q in RowBits(b, cx, py, n) <==> q.1 == py && cx <= q.0 < cx + n && Bit(b, q.0 - cx)
  {
    if n > 0 {
      RowBitsCover(b, cx, py, n - 1);
    }
  }

  /** Rows `0 .. n - 1` of glyph `g` with its top-left corner at `(cx, cy)`. */
  function GlyphPoints(g: Glyph, cx: int, cy: int, n: nat): seq<Point>
    requires n <= 8
  {
    if n == 0 then [] else GlyphPoints(g, cx, cy, n - 1) + RowBits(g[n - 1], cx, cy + n - 1, 8)
  }

  /** A glyph writes exactly the points whose bit is set in their row. */
  lemma {:induction false} GlyphPointsCover(g: Glyph, cx: int, cy: int, n: nat)
    requires n <= 8
    ensures forall q :: q in GlyphPoints(g, cx, cy, n) <==> cy <= q.1 < cy + n && cx <= q.0 < cx + 8 && Bit(g[q.1 - cy], q.0 - cx)
  {
    if n > 0 {
      GlyphPointsCover(g, cx, cy, n - 1);
      RowBitsCover(g[n - 1], cx, cy + n - 1, 8);
    }
  }

  /** One character at cursor `cx`: nothing when its code is outside the table. */
  function CharPoints(font: seq<Glyph>, cx: int, cy: int, ch: char): seq<Point>
  {
    if ch as int >= |font| then [] else GlyphPoints(font[ch as int], cx, cy, 8)
  }

  /**
   * Whether text `s` with its cursor starting at `(x, y)` covers point `q`:
   * `q` lies in the cell of character number `(q.0 - x) / 8`, that character
   * is in the table, and its glyph has the bit for `q` set.
   */
  predicate TextCovers(font: seq<Glyph>, x: int, y: int, s: string, q: Point)
  {
    && x <= q.0 && y <= q.1 < y + 8
    && (q.0 - x) / ADVANCE < |s|
    && s[(q.0 - x) / ADVANCE] as int < |font|
    && Bit(font[s[(q.0 - x) / ADVANCE] as int][q.1 - y], (q.0 - x) % ADVANCE)
  }

  /**
   * The points `draw_text` writes, in order: each character's glyph at the
   * cursor, which then advances by exactly 8 whether or not the character
   * was drawn.
   */
  function TextPoints(font: seq<Glyph>, x: int, y: int, s: string): seq<Point>
    decreases |s|
  {
    if s == [] then []
    else
      var n := |s| - 1;
      TextPoints(font, x, y, s[..n]) + CharPoints(font, x + ADVANCE * n, y, s[n])
  }

  /** The text writes exactly the points it covers. */
  lemma {:induction false} TextPointsCover(font: seq<Glyph>, x: int, y: int, s: string)
    ensures forall q :: q in TextPoints(font, x, y, s) <==> TextCovers(font, x, y, s, q)
    decreases |s|
  {
    if s != [] {
      var n := |s| - 1;
      TextPointsCover(font, x, y, s[..n]);
      if s[n] as int < |font| {
        GlyphPointsCover(font[s[n] as int], x + ADVANCE * n, y, 8);
      }
      forall q
        ensures q in TextPoints(font, x, y, s) <==> TextCovers(font, x, y, s, q)
      {
        TextCoversSplit(font, x, y, s, q);
      }
    }
  }

  /** Coverage by `s` is coverage by all but its last character, or by the last one in its cell. */
  lemma TextCoversSplit(font: seq<Glyph>, x: int, y: int, s: string, q: Point)
    requires |s| > 0
    ensures TextCovers(font, x, y, s, q) <==>
      TextCovers(font, x, y, s[..|s| - 1], q) || q in CharPoints(font, x + ADVANCE * (|s| - 1), y, s[|s| - 1])
  {
    var n := |s| - 1;
    if s[n] as int < |font| {
      GlyphPointsCover(font[s[n] as int], x + ADVANCE * n, y, 8);
    }
    if x <= q.0 {
      var i := (q.0 - x) / ADVANCE;
      assert x + ADVANCE * i <= q.0 < x + ADVANCE * i + ADVANCE;
      assert (q.0 - x) % ADVANCE == q.0 - (x + ADVANCE * i);
      if i < n {
        assert s[..n][i] == s[i];
        assert !(x + ADVANCE * n <= q.0);
      }
    }
  }

  /** The effect of `draw_text` on a frame: a negative position is taken as 0 first. */
  function PaintText(w: nat, h: nat, font: seq<Glyph>, s: seq<bv8>, pos: Vec2, text: string, c: Color): (r: seq<bv8>)
    requires |s| == w * h * 4
    ensures |r| == |s|
  {
    var (x, y) := AsU32Tuple(pos);
    Paint(w, h, s, TextPoints(font, x, y, text), c)
  }

  /**
   * `draw_text` sets an in-canvas pixel to `c` exactly when the text, started
   * at the clamped position, covers it; every other pixel is unchanged.
   */
  lemma TextPixels(w: nat, h: nat, font: seq<Glyph>, s: seq<bv8>, pos: Vec2, text: string, c: Color, q: Point)
    requires |s| == w * h * 4 && InCanvas(w, h, q)
    ensures PixelAt(w, h, PaintText(w, h, font, s, pos, text, c), q) ==
      if TextCovers(font, ClampToZero(pos.x), ClampToZero(pos.y), text, q) then Bytes(c) else PixelAt(w, h, s, q)
  {
    PaintPixel(w, h, s, TextPoints(font, ClampToZero(pos.x), ClampToZero(pos.y), text), c, q);
    TextPointsCover(font, ClampToZero(pos.x), ClampToZero(pos.y), text);
  }

  /** A character outside the table draws nothing, yet the next one is drawn 8 pixels further on. */
  lemma UndrawableCharAdvances(font: seq<Glyph>, x: int, y: int, s: string, ch: char)
    requires ch as int >= |font|
    ensures TextPoints(font, x, y, s + [ch]) == TextPoints(font, x, y, s)
    ensures forall q :: TextCovers(font, x + ADVANCE, y, s, q) <==> TextCovers(font, x, y, [ch] + s, q)
  {
    assert (s + [ch])[..|s|] == s;
    forall q
      ensures TextCovers(font, x + ADVANCE, y, s, q) <==> TextCovers(font, x, y, [ch] + s, q)
    {
      var t := [ch] + s;
      if x + ADVANCE <= q.0 {
        var i := (q.0 - x - ADVANCE) / ADVANCE;
        assert (q.0 - x) / ADVANCE == i + 1;
        assert (q.0 - x) % ADVANCE == (q.0 - x - ADVANCE) % ADVANCE;
        assert i < |s| ==> t[i + 1] == s[i];
      } else if x <= q.0 {
        assert (q.0 - x) / ADVANCE == 0;
      }
    }
  }
}

/**
 * Clamped axis-aligned rectangle fill (`draw_rect`, src/backends/pixels.rs).
 */
module Rects {
  import opened Vectors
  import opened Colors
  import opened Frame

  /** Rust's `u32::saturating_add`. */
  function SaturatingAdd(a: nat, b: nat): (r: nat)
    ensures a + b <= U32_MAX ==> r == a + b
    ensures a + b > U32_MAX ==> r == U32_MAX
  {
    if a + b > U32_MAX then U32_MAX else a + b
  }

  function Min(a: int, b: int): int
  {
    if a <= b then a else b
  }

  /** The clamped region `[startX, endX) x [startY, endY)` that `draw_rect` fills. */
  datatype Region = Region(startX: nat, endX: nat, startY: nat, endY: nat)

  /**
   * Negative components of `pos` and `size` become 0, the far edges are
   * computed with saturating addition, and all four edges are clamped to the
   * canvas.
   */
  function RectRegion(w: nat, h: nat, pos: Vec2, size: Vec2): (g: Region)
    ensures g.startX <= w && g.endX <= w && g.startY <= h && g.endY <= h
  {
    var (x, y) := AsU32Tuple(pos);
    var (sw, sh) := AsU32Tuple(size);
    Region(Min(x, w), Min(SaturatingAdd(x, sw), w), Min(y, h), Min(SaturatingAdd(y, sh), h))
  }

  /** Points `(x0, y) .. (x1 - 1, y)`, left to right. */
  function RowPoints(y: int, x0: int, x1: int): seq<Point>
    decreases x1 - x0
  {
    if x1 <= x0 then [] else RowPoints(y, x0, x1 - 1) + [(x1 - 1, y)]
  }

  /** A row holds exactly the points `(x, y)` with `x0 <= x < x1`. */
  lemma {:induction false} RowPointsCover(y: int, x0: int, x1: int)
    ensures forall q :: q in RowPoints(y, x0, x1) <==> q.1 == y && x0 <= q.0 < x1
    decreases x1 - x0
  {
    if x0 < x1 {
      RowPointsCover(y, x0, x1 - 1);
    }
  }

  /** Rows `y0 .. y1 - 1` of the region, top to bottom, in the order `draw_rect` fills them. */
  function RegionPoints(x0: int, x1: int, y0: int, y1: int): seq<Point>
    decreases y1 - y0
  {
    if y1 <= y0 then [] else RegionPoints(x0, x1, y0, y1 - 1) + RowPoints(y1 - 1, x0, x1)
  }

  /** A region holds exactly the points of the rectangle `[x0, x1) x [y0, y1)`. */
  lemma {:induction false} RegionPointsCover(x0: int, x1: int, y0: int, y1: int)
    ensures forall q :: q in RegionPoints(x0, x1, y0, y1) <==> x0 <= q.0 < x1 && y0 <= q.1 < y1
    decreases y1 - y0
  {
    if y0 < y1 {
      RegionPointsCover(x0, x1, y0, y1 - 1);
      RowPointsCover(y1 - 1, x0, x1);
    }
  }

  /** The effect of `draw_rect` on a frame; an empty clamped region returns early. */
  function FillRect(w: nat, h: nat, s: seq<bv8>, pos: Vec2, size: Vec2, c: Color): (r: seq<bv8>)
    requires |s| == w * h * 4
    ensures |r| == |s|
  {
    var g := RectRegion(w, h, pos, size);
    if g.startX >= g.endX || g.startY >= g.endY then s
    else Paint(w, h, s, RegionPoints(g.startX, g.endX, g.startY, g.endY), c)
  }

  /**
   * `draw_rect` sets exactly the in-canvas pixels of `[x, x + w) x [y, y + h)`,
   * where negative components of the position and the size are first taken
   * as 0, and leaves every other pixel unchanged; in particular a rectangle
   * whose clamped region is empty changes nothing.
   */
  lemma RectPixels(w: nat, h: nat, s: seq<bv8>, pos: Vec2, size: Vec2, c: Color, q: Point)
    requires |s| == w * h * 4 && InCanvas(w, h, q)
    requires w <= U32_MAX && h <= U32_MAX
    ensures PixelAt(w, h, FillRect(w, h, s, pos, size, c), q) ==
      if ClampToZero(pos.x) <= q.0 < ClampToZero(pos.x) + ClampToZero(size.x)
         && ClampToZero(pos.y) <= q.1 < ClampToZero(pos.y) + ClampToZero(size.y)
      then Bytes(c) else PixelAt(w, h, s, q)
  {
    var g := RectRegion(w, h, pos, size);
    if !(g.startX >= g.endX || g.startY >= g.endY) {
      PaintPixel(w, h, s, RegionPoints(g.startX, g.endX, g.startY, g.endY), c, q);
      RegionPointsCover(g.startX, g.endX, g.startY, g.endY);
    }
  }

  /** An empty clamped region changes no byte of the frame. */
  lemma EmptyRectUnchanged(w: nat, h: nat, s: seq<bv8>, pos: Vec2, size: Vec2, c: Color)
    requires |s| == w * h * 4
    requires ClampToZero(pos.x) >= w || ClampToZero(pos.y) >= h || size.x <= 0 || size.y <= 0
    ensures FillRect(w, h, s, pos, size, c) == s
  {
  }
}

/**
 * The logical pixel buffer of the rasterizer as a value: a flat sequence of
 * `w * h * 4` bytes, pixel `(x, y)` at bytes `[(y * w + x) * 4, +4)` holding
 * R, G, B, A (src/backends/pixels.rs).
 *
 * Every primitive of the rasterizer is a sequence of points written in order;
 * `Paint` is the effect of writing them one after the other.
 */
module Frame {
  import opened Colors

  type Point = (int, int)

  predicate InCanvas(w: nat, h: nat, p: Point)
  {
    0 <= p.0 < w && 0 <= p.1 < h
  }

  /** Row-major index of pixel `p` on a canvas `w` pixels wide. */
  function PixelIndex(w: nat, p: Point): int
  {
    p.1 * w + p.0
  }

  lemma MulMonotone(a: int, b: int, c: nat)
    requires a <= b
    ensures a * c <= b * c
  {
    assert b * c - a * c == (b - a) * c;
  }

  /** An in-canvas pixel's four bytes lie inside the frame. */
  lemma PixelIndexBounds(w: nat, h: nat, p: Point)
    requires InCanvas(w, h, p)
    ensures 0 <= PixelIndex(w, p) < w * h
    ensures 4 * PixelIndex(w, p) + 4 <= w * h * 4
  {
    MulMonotone(0, p.1, w);
    MulMonotone(p.1 + 1, h, w);
  }

  /** Distinct in-canvas pixels occupy distinct bytes. */
  lemma PixelIndexInjective(w: nat, h: nat, p: Point, q: Point)
    requires InCanvas(w, h, p) && InCanvas(w, h, q)
    requires PixelIndex(w, p) == PixelIndex(w, q)
    ensures p == q
  {
    if p.1 < q.1 {
      MulMonotone(p.1 + 1, q.1, w);
    } else if q.1 < p.1 {
      MulMonotone(q.1 + 1, p.1, w);
    }
  }

  /** The four bytes starting at byte offset `at` replaced by the colour's bytes (`copy_from_slice`). */
  function Put(s: seq<bv8>, at: nat, c: Color): (r: seq<bv8>)
    requires at + 4 <= |s|
    ensures |r| == |s|
  {
    s[at := c.r][at + 1 := c.g][at + 2 := c.b][at + 3 := c.a]
  }

  /** `Put` changes exactly the four bytes at `at`, to the colour's R, G, B, A. */
  lemma PutBytes(s: seq<bv8>, at: nat, c: Color)
    requires at + 4 <= |s|
    ensures forall k :: 0 <= k < |s| ==>
      Put(s, at, c)[k] == if at <= k < at + 4 then Bytes(c)[k - at] else s[k]
  {
  }

  /**
   * `set_pixel` behind the callers' non-negativity guards: writes the four
   * bytes of `p` when `p` is on the canvas, and nothing otherwise.
   */
  function Plot(w: nat, h: nat, s: seq<bv8>, p: Point, c: Color): (r: seq<bv8>)
    requires |s| == w * h * 4
    ensures |r| == |s|
    ensures !InCanvas(w, h, p) ==> r == s
  {
    if InCanvas(w, h, p) then
      PixelIndexBounds(w, h, p);
      Put(s, 4 * PixelIndex(w, p), c)
    else
      s
  }

  /** At the byte level, `Plot` changes exactly the four bytes of an in-canvas `p`, to `c`. */
  lemma PlotBytes(w: nat, h: nat, s: seq<bv8>, p: Point, c: Color)
    requires |s| == w * h * 4
    ensures InCanvas(w, h, p) ==> 4 * PixelIndex(w, p) + 4 <= |s|
    ensures forall k :: 0 <= k < |s| ==>
      Plot(w, h, s, p, c)[k] == if InCanvas(w, h, p) && 4 * PixelIndex(w, p) <= k < 4 * PixelIndex(w, p) + 4
                                then Bytes(c)[k - 4 * PixelIndex(w, p)] else s[k]
  {
    if InCanvas(w, h, p) {
      PixelIndexBounds(w, h, p);
      PutBytes(s, 4 * PixelIndex(w, p), c);
    }
  }

  /** The points written one after the other, each guarded by the canvas bounds. */
  function Paint(w: nat, h: nat, s: seq<bv8>, pts: seq<Point>, c: Color): (r: seq<bv8>)
    requires |s| == w * h * 4
    ensures |r| == |s|
    decreases |pts|
  {
    if pts == [] then s else Paint(w, h, Plot(w, h, s, pts[0], c), pts[1..], c)
  }

  /** The four bytes of an in-canvas pixel. */
  function PixelAt(w: nat, h: nat, s: seq<bv8>, p: Point): (r: seq<bv8>)
    requires |s| == w * h * 4 && InCanvas(w, h, p)
    ensures |r| == 4
  {
    PixelIndexBounds(w, h, p);
    s[4 * PixelIndex(w, p)..4 * PixelIndex(w, p) + 4]
  }

  /** `set_pixel` at the pixel level: only pixel `p` changes, and it becomes `c`. */
  lemma PlotPixel(w: nat, h: nat, s: seq<bv8>, p: Point, c: Color, q: Point)
    requires |s| == w * h * 4 && InCanvas(w, h, q)
    ensures PixelAt(w, h, Plot(w, h, s, p, c), q) == if p == q then Bytes(c) else PixelAt(w, h, s, q)
  {
    var r := Plot(w, h, s, p, c);
    var i := 4 * PixelIndex(w, q);
    PixelIndexBounds(w, h, q);
    PlotBytes(w, h, s, p, c);
    if p == q {
      assert PixelAt(w, h, r, q) == Bytes(c);
    } else if InCanvas(w, h, p) {
      var j := 4 * PixelIndex(w, p);
      if PixelIndex(w, p) == PixelIndex(w, q) {
        PixelIndexInjective(w, h, p, q);
      }
      assert j + 4 <= i || i + 4 <= j;
      assert PixelAt(w, h, r, q) == PixelAt(w, h, s, q);
    }
  }

  /** Painting `a` then `b` is painting `a + b`. */
  lemma {:induction false} PaintAppend(w: nat, h: nat, s: seq<bv8>, a: seq<Point>, b: seq<Point>, c: Color)
    requires |s| == w * h * 4
    ensures Paint(w, h, s, a + b, c) == Paint(w, h, Paint(w, h, s, a, c), b, c)
    decreases |a|
  {
    if a == [] {
      assert a + b == b;
    } else {
      assert (a + b)[0] == a[0];
      assert (a + b)[1..] == a[1..] + b;
      PaintAppend(w, h, Plot(w, h, s, a[0], c), a[1..], b, c);
    }
  }

  /** Writing one more point after a painted sequence. */
  lemma PaintSnoc(w: nat, h: nat, s: seq<bv8>, pts: seq<Point>, p: Point, c: Color)
    requires |s| == w * h * 4
    ensures Paint(w, h, s, pts + [p], c) == Plot(w, h, Paint(w, h, s, pts, c), p, c)
  {
    PaintAppend(w, h, s, pts, [p], c);
  }

  /**
   * The effect of painting at one pixel: an in-canvas pixel becomes `c` exactly
   * when it is one of the points, and keeps its old bytes otherwise.
   */
  lemma {:induction false} PaintPixel(w: nat, h: nat, s: seq<bv8>, pts: seq<Point>, c: Color, q: Point)
    requires |s| == w * h * 4 && InCanvas(w, h, q)
    ensures PixelAt(w, h, Paint(w, h, s, pts, c), q) == if q in pts then Bytes(c) else PixelAt(w, h, s, q)
    decreases |pts|
  {
    if pts != [] {
      var s' := Plot(w, h, s, pts[0], c);
      PlotPixel(w, h, s, pts[0], c, q);
      PaintPixel(w, h, s', pts[1..], c, q);
      assert q in pts <==> q == pts[0] || q in pts[1..] by {
        assert pts == [pts[0]] + pts[1..];
      }
    }
  }

  /** Points none of which is on the canvas change nothing. */
  lemma {:induction false} PaintOffCanvas(w: nat, h: nat, s: seq<bv8>, pts: seq<Point>, c: Color)
    requires |s| == w * h * 4
    requires forall i :: 0 <= i < |pts| ==> !InCanvas(w, h, pts[i])
    ensures Paint(w, h, s, pts, c) == s
    decreases |pts|
  {
    if pts != [] {
      PaintOffCanvas(w, h, s, pts[1..], c);
    }
  }

  /** A frame of `n` bytes in which every pixel holds colour `c` (`clear`). */
  function Cleared(n: nat, c: Color): (r: seq<bv8>)
    ensures |r| == n
  {
    seq(n, k => Bytes(c)[k % 4])
  }

  /** After clearing with `c`, every in-canvas pixel holds exactly `c`'s four bytes. */
  lemma ClearedPixels(w: nat, h: nat, c: Color, q: Point)
    requires InCanvas(w, h, q)
    ensures PixelAt(w, h, Cleared(w * h * 4, c), q) == Bytes(c)
  {
    var i := 4 * PixelIndex(w, q);
    PixelIndexBounds(w, h, q);
    var r := Cleared(w * h * 4, c);
    forall k | 0 <= k < 4
      ensures PixelAt(w, h, r, q)[k] == Bytes(c)[k]
    {
      assert PixelAt(w, h, r, q)[k] == r[i + k];
      assert (i + k) % 4 == k;
    }
  }
}

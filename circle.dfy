/**
 * Midpoint circle rasterization with 8-way symmetry (`draw_circle`,
 * src/backends/pixels.rs). The loop state is a `Midpoint`; the update is the
 * source's single `if err > 0` step, not a textbook inner `while`.
 */
module Circles {
  import opened Vectors
  import opened Colors
  import opened Frame

  datatype Midpoint = Midpoint(x: int, y: int, err: int)

  /** The state before the first iteration: `x = radius, y = 0, err = 0`. */
  function CircleStart(radius: int): Midpoint
  {
    Midpoint(radius, 0, 0)
  }

  /** The update after the writes: `y` grows by one and `x` shrinks by at most one. */
  function CircleStep(m: Midpoint): (n: Midpoint)
    ensures n.y == m.y + 1
    ensures m.x - 1 <= n.x <= m.x
  {
    var y := m.y + 1;
    var err := if m.err <= 0 then m.err + 2 * y + 1 else m.err;
    if err > 0 then Midpoint(m.x - 1, y, err - 2 * (m.x - 1) - 1) else Midpoint(m.x, y, err)
  }

  /** The eight symmetric points of one iteration, in the order they are written. */
  function Octants(cx: int, cy: int, x: int, y: int): (r: seq<Point>)
    ensures |r| == 8
  {
    [ (cx + x, cy + y), (cx + y, cy + x), (cx - y, cy + x), (cx - x, cy + y),
      (cx - x, cy - y), (cx - y, cy - x), (cx + y, cy - x), (cx + x, cy - y) ]
  }

  /** The points the loop writes from state `m` on (`while x >= y`). */
  function CirclePointsFrom(cx: int, cy: int, m: Midpoint): seq<Point>
    requires 0 <= m.y
    decreases m.x - m.y + 1
  {
    if m.x < m.y then [] else Octants(cx, cy, m.x, m.y) + CirclePointsFrom(cx, cy, CircleStep(m))
  }

  /** No point written from state `m` on is further than the current `x` from the centre on either axis. */
  lemma {:induction false} CirclePointsFromBounded(cx: int, cy: int, m: Midpoint)
    requires 0 <= m.y
    ensures forall q :: q in CirclePointsFrom(cx, cy, m) ==> Abs(q.0 - cx) <= m.x && Abs(q.1 - cy) <= m.x
    decreases m.x - m.y + 1
  {
    if m.x >= m.y {
      var rest := CirclePointsFrom(cx, cy, CircleStep(m));
      CirclePointsFromBounded(cx, cy, CircleStep(m));
      forall q | q in CirclePointsFrom(cx, cy, m)
        ensures Abs(q.0 - cx) <= m.x && Abs(q.1 - cy) <= m.x
      {
        if q !in rest {
          assert q in Octants(cx, cy, m.x, m.y);
        }
      }
    }
  }

  /**
   * The eight points of one iteration are closed under swapping the two
   * offsets from the centre and under mirroring either axis.
   */
  lemma OctantsSymmetric(cx: int, cy: int, x: int, y: int, a: int, b: int)
    requires (cx + a, cy + b) in Octants(cx, cy, x, y)
    ensures (cx + b, cy + a) in Octants(cx, cy, x, y)
    ensures (cx - a, cy + b) in Octants(cx, cy, x, y)
    ensures (cx + a, cy - b) in Octants(cx, cy, x, y)
  {
    var o := Octants(cx, cy, x, y);
    var i :| 0 <= i < 8 && o[i] == (cx + a, cy + b);
    if i == 0 {
      assert o[1] == (cx + b, cy + a) && o[3] == (cx - a, cy + b) && o[7] == (cx + a, cy - b);
    } else if i == 1 {
      assert o[0] == (cx + b, cy + a) && o[2] == (cx - a, cy + b) && o[6] == (cx + a, cy - b);
    } else if i == 2 {
      assert o[7] == (cx + b, cy + a) && o[1] == (cx - a, cy + b) && o[5] == (cx + a, cy - b);
    } else if i == 3 {
      assert o[6] == (cx + b, cy + a) && o[0] == (cx - a, cy + b) && o[4] == (cx + a, cy - b);
    } else if i == 4 {
      assert o[5] == (cx + b, cy + a) && o[7] == (cx - a, cy + b) && o[3] == (cx + a, cy - b);
    } else if i == 5 {
      assert o[4] == (cx + b, cy + a) && o[6] == (cx - a, cy + b) && o[2] == (cx + a, cy - b);
    } else if i == 6 {
      assert o[3] == (cx + b, cy + a) && o[5] == (cx - a, cy + b) && o[1] == (cx + a, cy - b);
    } else {
      assert o[2] == (cx + b, cy + a) && o[4] == (cx - a, cy + b) && o[0] == (cx + a, cy - b);
    }
  }

  /** Everything the loop writes from state `m` on is 8-way symmetric about the centre. */
  lemma {:induction false} CirclePointsFromSymmetric(cx: int, cy: int, m: Midpoint, a: int, b: int)
    requires 0 <= m.y
    requires (cx + a, cy + b) in CirclePointsFrom(cx, cy, m)
    ensures (cx + b, cy + a) in CirclePointsFrom(cx, cy, m)
    ensures (cx - a, cy + b) in CirclePointsFrom(cx, cy, m)
    ensures (cx + a, cy - b) in CirclePointsFrom(cx, cy, m)
    decreases m.x - m.y + 1
  {
    var o := Octants(cx, cy, m.x, m.y);
    var rest := CirclePointsFrom(cx, cy, CircleStep(m));
    assert CirclePointsFrom(cx, cy, m) == o + rest;
    if (cx + a, cy + b) in o {
      OctantsSymmetric(cx, cy, m.x, m.y, a, b);
    } else {
      CirclePointsFromSymmetric(cx, cy, CircleStep(m), a, b);
    }
  }

  /** `draw_circle(center, radius)`'s points, in the order they are written. */
  function CirclePoints(center: Vec2, radius: int): (r: seq<Point>)
    ensures radius < 0 ==> r == []
  {
    CirclePointsFrom(center.x, center.y, CircleStart(radius))
  }

  /** The effect of `draw_circle` on a frame. */
  function PaintCircle(w: nat, h: nat, s: seq<bv8>, center: Vec2, radius: int, c: Color): (r: seq<bv8>)
    requires |s| == w * h * 4
    ensures |r| == |s|
  {
    Paint(w, h, s, CirclePoints(center, radius), c)
  }

  /** While `x >= y`, the next eight points written are the octants of the current state. */
  lemma CirclePointsFromHead(cx: int, cy: int, m: Midpoint)
    requires 0 <= m.y <= m.x
    ensures forall q :: q in Octants(cx, cy, m.x, m.y) ==> q in CirclePointsFrom(cx, cy, m)
  {
    assert CirclePointsFrom(cx, cy, m) == Octants(cx, cy, m.x, m.y) + CirclePointsFrom(cx, cy, CircleStep(m));
  }

  /**
   * `draw_circle` writes an 8-way symmetric point set: with `(cx + a, cy + b)`
   * it also writes `(cx + b, cy + a)`, `(cx - a, cy + b)` and `(cx + a, cy - b)`,
   * and so every point obtained by swapping and mirroring the offsets.
   */
  lemma CircleSymmetric(center: Vec2, radius: int, a: int, b: int)
    requires (center.x + a, center.y + b) in CirclePoints(center, radius)
    ensures (center.x + b, center.y + a) in CirclePoints(center, radius)
    ensures (center.x - a, center.y + b) in CirclePoints(center, radius)
    ensures (center.x + a, center.y - b) in CirclePoints(center, radius)
  {
    CirclePointsFromSymmetric(center.x, center.y, CircleStart(radius), a, b);
  }

  /** The first iteration writes the four axis points at distance `radius`. */
  lemma CircleAxisPoints(center: Vec2, radius: int)
    requires radius >= 0
    ensures (center.x + radius, center.y) in CirclePoints(center, radius)
    ensures (center.x - radius, center.y) in CirclePoints(center, radius)
    ensures (center.x, center.y + radius) in CirclePoints(center, radius)
    ensures (center.x, center.y - radius) in CirclePoints(center, radius)
  {
    var o := Octants(center.x, center.y, radius, 0);
    CirclePointsFromHead(center.x, center.y, CircleStart(radius));
    assert o[0] in o && o[1] in o && o[3] in o && o[5] in o;
  }

  /**
   * `draw_circle` with a negative radius changes nothing; otherwise it sets
   * the four in-canvas axis points to `c` and changes no pixel outside the
   * square of half-side `radius` around the centre.
   */
  lemma CirclePixels(w: nat, h: nat, s: seq<bv8>, center: Vec2, radius: int, c: Color, q: Point)
    requires |s| == w * h * 4 && InCanvas(w, h, q)
    ensures radius < 0 ==> PaintCircle(w, h, s, center, radius, c) == s
    ensures radius >= 0 && q in {(center.x + radius, center.y), (center.x - radius, center.y),
                                 (center.x, center.y + radius), (center.x, center.y - radius)}
            ==> PixelAt(w, h, PaintCircle(w, h, s, center, radius, c), q) == Bytes(c)
    ensures Abs(q.0 - center.x) > radius || Abs(q.1 - center.y) > radius
            ==> PixelAt(w, h, PaintCircle(w, h, s, center, radius, c), q) == PixelAt(w, h, s, q)
  {
    PaintPixel(w, h, s, CirclePoints(center, radius), c, q);
    CirclePointsFromBounded(center.x, center.y, CircleStart(radius));
    if radius >= 0 {
      CircleAxisPoints(center, radius);
    }
  }

  /** Centre (50,50) with radius 10 writes (60,50), (50,60), (40,50), (50,40) and never (61,50). */
  lemma CircleExample(center: Vec2)
    requires center == Vec2(50, 50)
    ensures (60, 50) in CirclePoints(center, 10) && (50, 60) in CirclePoints(center, 10)
    ensures (40, 50) in CirclePoints(center, 10) && (50, 40) in CirclePoints(center, 10)
    ensures (61, 50) !in CirclePoints(center, 10)
  {
    CircleAxisPoints(center, 10);
    CirclePointsFromBounded(center.x, center.y, CircleStart(10));
  }
}

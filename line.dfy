/**
 * Integer Bresenham line rasterization (`draw_line`, src/backends/pixels.rs).
 *
 * The loop state is a `Cursor` (the current point and the error term); the
 * per-line constants are a `Bresenham` value. `LinePointsFrom` lists the
 * points the loop visits, in order, from a cursor to the end point.
 */
module Lines {
  import opened Vectors
  import opened Frame

  datatype Bresenham = Bresenham(x1: int, y1: int, dx: int, dy: int, sx: int, sy: int)
  datatype Cursor = Cursor(x: int, y: int, err: int)

  /** The loop constants for a line from `p1` to `p2`: `dx = |x1-x0|`, `dy = -|y1-y0|`, step signs. */
  function LineSetup(p1: Vec2, p2: Vec2): (b: Bresenham)
    ensures b.x1 == p2.x && b.y1 == p2.y
    ensures b.dx >= 0 && b.dy <= 0
    ensures if b.sx == 1 then p1.x + b.dx == p2.x else b.sx == -1 && p1.x - b.dx == p2.x
    ensures if b.sy == 1 then p1.y - b.dy == p2.y else b.sy == -1 && p1.y + b.dy == p2.y
  {
    Bresenham(p2.x, p2.y, Abs(p2.x - p1.x), 0 - Abs(p2.y - p1.y),
              if p1.x < p2.x then 1 else -1, if p1.y < p2.y then 1 else -1)
  }

  /** The cursor before the first iteration: at `p1`, with `err = dx + dy`. */
  function LineStart(p1: Vec2, p2: Vec2): Cursor
  {
    var b := LineSetup(p1, p2);
    Cursor(p1.x, p1.y, b.dx + b.dy)
  }

  /** Steps still to take along x: the distance to `x1`, measured in the direction `sx`. */
  function RemX(b: Bresenham, c: Cursor): int
  {
    if b.sx == 1 then b.x1 - c.x else c.x - b.x1
  }

  function RemY(b: Bresenham, c: Cursor): int
  {
    if b.sy == 1 then b.y1 - c.y else c.y - b.y1
  }

  /**
   * `a * n` by repeated addition. The invariant states the error term with it,
   * so that unfolding the invariant inside the rasterizer's loop stays linear.
   */
  function Times(a: int, n: int): int
    decreases Abs(n)
  {
    if n == 0 then 0 else if n > 0 then Times(a, n - 1) + a else Times(a, n + 1) - a
  }

  lemma {:induction false} TimesIsProduct(a: int, n: int)
    ensures Times(a, n) == a * n
    decreases Abs(n)
  {
    if n > 0 {
      TimesIsProduct(a, n - 1);
    } else if n < 0 {
      TimesIsProduct(a, n + 1);
    }
  }

  /** The error term the invariant ties to `rx` and `ry` steps remaining: `dx + dy - dy*rx - dx*ry`. */
  function ErrFor(b: Bresenham, rx: int, ry: int): int
  {
    b.dx + b.dy - Times(b.dy, rx) - Times(b.dx, ry)
  }

  lemma ErrForProduct(b: Bresenham, rx: int, ry: int)
    ensures ErrFor(b, rx, ry) == b.dx + b.dy - b.dy * rx - b.dx * ry
  {
    TimesIsProduct(b.dy, rx);
    TimesIsProduct(b.dx, ry);
  }

  /**
   * What the loop keeps: the cursor has not passed the end point on either
   * axis, and the error term is determined by the steps remaining.
   */
  ghost predicate LineInv(b: Bresenham, c: Cursor)
  {
    && (b.sx == 1 || b.sx == -1) && (b.sy == 1 || b.sy == -1)
    && 0 <= RemX(b, c) <= b.dx
    && 0 <= RemY(b, c) <= -b.dy
    && c.err == ErrFor(b, RemX(b, c), RemY(b, c))
  }

  predicate AtEnd(b: Bresenham, c: Cursor)
  {
    c.x == b.x1 && c.y == b.y1
  }

  /** One iteration of the loop after the write: both tests use the same `e2 = 2 * err`. */
  function LineStep(b: Bresenham, c: Cursor): (r: Cursor)
    ensures r.x == c.x || r.x == c.x + b.sx
    ensures r.y == c.y || r.y == c.y + b.sy
  {
    var e2 := 2 * c.err;
    var stepX := e2 >= b.dy;
    var stepY := e2 <= b.dx;
    Cursor(if stepX then c.x + b.sx else c.x,
           if stepY then c.y + b.sy else c.y,
           c.err + (if stepX then b.dy else 0) + (if stepY then b.dx else 0))
  }

  /** `p` and `q` are the same point, or `q` is one unit step of the line away from `p`. */
  predicate UnitStep(b: Bresenham, p: Point, q: Point)
  {
    (q.0 == p.0 || q.0 == p.0 + b.sx) && (q.1 == p.1 || q.1 == p.1 + b.sy) && q != p
  }

  predicate Between(v: int, a: int, b: int)
  {
    (a <= v <= b) || (b <= v <= a)
  }

  lemma LineStartInv(p1: Vec2, p2: Vec2)
    ensures LineInv(LineSetup(p1, p2), LineStart(p1, p2))
  {
    var b, c := LineSetup(p1, p2), LineStart(p1, p2);
    assert RemX(b, c) == b.dx && RemY(b, c) == -b.dy;
    ErrForProduct(b, b.dx, -b.dy);
    assert b.dy * b.dx == b.dx * b.dy;
  }

  /** At `x1` with y steps left, the x test `2 * err >= dy` fails. */
  lemma NoOvershootX(b: Bresenham, ry: int)
    requires b.dx >= 0 && 1 <= ry <= -b.dy
    ensures 2 * ErrFor(b, 0, ry) < b.dy
  {
    ErrForProduct(b, 0, ry);
    MulMonotone(1, ry, b.dx);
  }

  /** At `y1` with x steps left, the y test `2 * err <= dx` fails. */
  lemma NoOvershootY(b: Bresenham, rx: int)
    requires b.dy <= 0 && 1 <= rx <= b.dx
    ensures 2 * ErrFor(b, rx, 0) > b.dx
  {
    ErrForProduct(b, rx, 0);
    MulMonotone(1, rx, -b.dy);
  }

  /** Taking an x step adds `dy` to the error term, a y step adds `dx`. */
  lemma ErrForStep(b: Bresenham, rx: int, ry: int)
    ensures ErrFor(b, rx - 1, ry) == ErrFor(b, rx, ry) + b.dy
    ensures ErrFor(b, rx, ry - 1) == ErrFor(b, rx, ry) + b.dx
    ensures ErrFor(b, rx - 1, ry - 1) == ErrFor(b, rx, ry) + b.dy + b.dx
  {
  }

  /**
   * An iteration away from the end point keeps the invariant, moves the cursor
   * one unit step (never past the end point) and brings it strictly closer.
   */
  lemma LineStepKeepsInv(b: Bresenham, c: Cursor)
    requires LineInv(b, c) && !AtEnd(b, c)
    ensures LineInv(b, LineStep(b, c))
    ensures UnitStep(b, (c.x, c.y), (LineStep(b, c).x, LineStep(b, c).y))
    ensures RemX(b, LineStep(b, c)) + RemY(b, LineStep(b, c)) < RemX(b, c) + RemY(b, c)
  {
    var rx, ry := RemX(b, c), RemY(b, c);
    assert c.err == ErrFor(b, rx, ry);
    var e2 := 2 * c.err;
    if rx == 0 {
      NoOvershootX(b, ry);
    }
    if ry == 0 {
      NoOvershootY(b, rx);
    }
    ErrForStep(b, rx, ry);
    var n := LineStep(b, c);
    var xs := e2 >= b.dy;
    var ys := e2 <= b.dx;
    assert xs || ys;
    var rx' := if xs then rx - 1 else rx;
    var ry' := if ys then ry - 1 else ry;
    assert RemX(b, n) == rx' && RemY(b, n) == ry';
    assert n.err == ErrFor(b, rx', ry');
  }

  /**
   * The points the loop writes from cursor `c` on: it starts at `c`, ends at
   * the end point and reaches it nowhere earlier, moves by unit steps, and
   * stays inside the box spanned by `c` and the end point.
   */
  function LinePointsFrom(b: Bresenham, c: Cursor): (r: seq<Point>)
    requires LineInv(b, c)
    ensures |r| >= 1 && r[0] == (c.x, c.y)
    decreases RemX(b, c) + RemY(b, c)
  {
    if AtEnd(b, c) then
      [(c.x, c.y)]
    else
      LineStepKeepsInv(b, c);
      var rest := LinePointsFrom(b, LineStep(b, c));
      [(c.x, c.y)] + rest
  }

  /**
   * The shape of the points listed from a cursor: they end at the end point
   * and reach it nowhere earlier, move by unit steps, and stay inside the box
   * spanned by the cursor and the end point.
   */
  lemma {:induction false} LinePointsFromShape(b: Bresenham, c: Cursor)
    requires LineInv(b, c)
    ensures var r := LinePointsFrom(b, c);
      && r[|r| - 1] == (b.x1, b.y1)
      && (forall i :: 0 <= i < |r| - 1 ==> r[i] != (b.x1, b.y1))
      && (forall i, j :: 0 <= i && j == i + 1 < |r| ==> UnitStep(b, r[i], r[j]))
      && (forall i :: 0 <= i < |r| ==> Between(r[i].0, c.x, b.x1) && Between(r[i].1, c.y, b.y1))
    decreases RemX(b, c) + RemY(b, c)
  {
    if !AtEnd(b, c) {
      LineStepKeepsInv(b, c);
      LinePointsFromShape(b, LineStep(b, c));
    }
  }

  /** `draw_line(p1, p2)`'s points, in the order they are written. */
  function LinePoints(p1: Vec2, p2: Vec2): (r: seq<Point>)
    ensures |r| >= 1 && r[0] == (p1.x, p1.y) && r[|r| - 1] == (p2.x, p2.y)
    ensures forall i :: 0 <= i < |r| - 1 ==> r[i] != (p2.x, p2.y)
    ensures forall i :: 0 <= i < |r| ==> Between(r[i].0, p1.x, p2.x) && Between(r[i].1, p1.y, p2.y)
    ensures forall i, j :: 0 <= i && j == i + 1 < |r| ==> UnitStep(LineSetup(p1, p2), r[i], r[j])
  {
    LineStartInv(p1, p2);
    LinePointsFromShape(LineSetup(p1, p2), LineStart(p1, p2));
    LinePointsFrom(LineSetup(p1, p2), LineStart(p1, p2))
  }

  /** The effect of `draw_line` on a frame. */
  function PaintLine(w: nat, h: nat, s: seq<bv8>, p1: Vec2, p2: Vec2, c: Colors.Color): (r: seq<bv8>)
    requires |s| == w * h * 4
    ensures |r| == |s|
  {
    Paint(w, h, s, LinePoints(p1, p2), c)
  }

  /**
   * `draw_line` writes both end points whenever they are on the canvas, and
   * changes no pixel outside the box spanned by the end points.
   */
  lemma LinePixels(w: nat, h: nat, s: seq<bv8>, p1: Vec2, p2: Vec2, c: Colors.Color, q: Point)
    requires |s| == w * h * 4 && InCanvas(w, h, q)
    ensures q == (p1.x, p1.y) || q == (p2.x, p2.y) ==> PixelAt(w, h, PaintLine(w, h, s, p1, p2, c), q) == Colors.Bytes(c)
    ensures !(Between(q.0, p1.x, p2.x) && Between(q.1, p1.y, p2.y)) ==>
      PixelAt(w, h, PaintLine(w, h, s, p1, p2, c), q) == PixelAt(w, h, s, q)
  {
    var pts := LinePoints(p1, p2);
    PaintPixel(w, h, s, pts, c, q);
    assert pts[0] in pts && pts[|pts| - 1] in pts;
  }

  /**
   * A line whose end points are both left of, or both above, the canvas
   * changes nothing: every point it visits has that negative coordinate.
   */
  lemma OffCanvasLineInvisible(w: nat, h: nat, s: seq<bv8>, p1: Vec2, p2: Vec2, c: Colors.Color)
    requires |s| == w * h * 4
    requires (p1.x < 0 && p2.x < 0) || (p1.y < 0 && p2.y < 0)
    ensures PaintLine(w, h, s, p1, p2, c) == s
  {
    PaintOffCanvas(w, h, s, LinePoints(p1, p2), c);
  }

  /** One unfolding of `LinePointsFrom` away from the end point. */
  lemma LinePointsFromStep(b: Bresenham, c: Cursor)
    requires LineInv(b, c) && !AtEnd(b, c)
    ensures LineInv(b, LineStep(b, c))
    ensures LinePointsFrom(b, c) == [(c.x, c.y)] + LinePointsFrom(b, LineStep(b, c))
  {
    LineStepKeepsInv(b, c);
  }

  /** The two iterations of the loop from (0,0) to (2,1), and from (2,1) back to (0,0). */
  lemma ExampleSteps(p1: Vec2, p2: Vec2)
    ensures p1 == Vec2(0, 0) && p2 == Vec2(2, 1) ==>
      && LineStart(p1, p2) == Cursor(0, 0, 1)
      && LineStep(LineSetup(p1, p2), Cursor(0, 0, 1)) == Cursor(1, 1, 2)
      && LineStep(LineSetup(p1, p2), Cursor(1, 1, 2)) == Cursor(2, 1, 1)
    ensures p1 == Vec2(2, 1) && p2 == Vec2(0, 0) ==>
      && LineStart(p1, p2) == Cursor(2, 1, 1)
      && LineStep(LineSetup(p1, p2), Cursor(2, 1, 1)) == Cursor(1, 0, 2)
      && LineStep(LineSetup(p1, p2), Cursor(1, 0, 2)) == Cursor(0, 0, 1)
  {
  }

  /** The points of a two-iteration line, one loop iteration at a time. */
  lemma TwoStepTrace(p1: Vec2, p2: Vec2, m: Cursor)
    requires LineStart(p1, p2).x != p2.x || LineStart(p1, p2).y != p2.y
    requires LineStep(LineSetup(p1, p2), LineStart(p1, p2)) == m
    requires LineStep(LineSetup(p1, p2), m) == Cursor(p2.x, p2.y, LineStep(LineSetup(p1, p2), m).err)
    requires m.x != p2.x || m.y != p2.y
    ensures LinePoints(p1, p2) == [(p1.x, p1.y)] + ([(m.x, m.y)] + [(p2.x, p2.y)])
  {
    var b := LineSetup(p1, p2);
    LineStartInv(p1, p2);
    var c0 := LineStart(p1, p2);
    LinePointsFromStep(b, c0);
    LinePointsFromStep(b, m);
    assert LinePointsFrom(b, LineStep(b, m)) == [(p2.x, p2.y)];
  }

  /** From (0,0) to (2,1) the loop visits (1,1) between the end points. */
  lemma LineExampleForward(p1: Vec2, p2: Vec2)
    requires p1 == Vec2(0, 0) && p2 == Vec2(2, 1)
    ensures LinePoints(p1, p2) == [(0, 0), (1, 1), (2, 1)]
  {
    ExampleSteps(p1, p2);
    TwoStepTrace(p1, p2, Cursor(1, 1, 2));
  }

  /**
   * From (2,1) to (0,0) the loop visits (1,0): swapping the end points does
   * not give the same pixels (compare `LineExampleForward`).
   */
  lemma LineExampleBackward(p1: Vec2, p2: Vec2)
    requires p1 == Vec2(2, 1) && p2 == Vec2(0, 0)
    ensures LinePoints(p1, p2) == [(2, 1), (1, 0), (0, 0)]
  {
    ExampleSteps(p1, p2);
    TwoStepTrace(p1, p2, Cursor(1, 0, 2));
  }
}

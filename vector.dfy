/**
 * The integer point type `Vec2` (src/vector.rs).
 *
 * Coordinates are unbounded integers: the `i32` range of the source is not
 * enforced, so overflow of `+` and `-` is not modelled.
 */
module Vectors {

  datatype Vec2 = Vec2(x: int, y: int)

  /** `Vec2::new`. */
  function New(x: int, y: int): (v: Vec2)
    ensures v.x == x && v.y == y
  {
    Vec2(x, y)
  }

  /** Rust's `i32::max(self, 0)`, followed by a cast that is the identity on non-negative values. */
  function ClampToZero(n: int): (r: nat)
    ensures r >= n
    ensures n >= 0 ==> r == n
    ensures n < 0 ==> r == 0
  {
    if n < 0 then 0 else n
  }

  /** The largest `u32`. */
  const U32_MAX: int := 0xFFFF_FFFF

  function Abs(n: int): nat
  {
    if n < 0 then -n else n
  }

  /** `Vec2::as_u32_tuple`: each negative component becomes 0, the others are kept. */
  function AsU32Tuple(v: Vec2): (r: (nat, nat))
    ensures r.0 >= v.x && r.1 >= v.y
    ensures v.x < 0 ==> r.0 == 0
    ensures v.y < 0 ==> r.1 == 0
    ensures v.x >= 0 ==> r.0 == v.x
    ensures v.y >= 0 ==> r.1 == v.y
  {
    (ClampToZero(v.x), ClampToZero(v.y))
  }

  /** The conversion of an `(i32, i32)` pair into a `Vec2`: the point `Vec2::new` builds. */
  function FromPair(p: (int, int)): (v: Vec2)
    ensures v == New(p.0, p.1)
    ensures (v.x, v.y) == p
  {
    Vec2(p.0, p.1)
  }

  /** `impl Add for Vec2`: subtracting either operand from the sum gives the other. */
  function Add(a: Vec2, b: Vec2): (r: Vec2)
    ensures Sub(r, b) == a && Sub(r, a) == b
  {
    Vec2(a.x + b.x, a.y + b.y)
  }

  /** `impl Sub for Vec2`: the difference is what must be added to `b` to reach `a`. */
  function Sub(a: Vec2, b: Vec2): (r: Vec2)
    ensures Vec2(r.x + b.x, r.y + b.y) == a
  {
    Vec2(a.x - b.x, a.y - b.y)
  }

  /** `(a + b) - b == a` and `(a - b) + b == a`: subtraction undoes addition. */
  lemma SubUndoesAdd(a: Vec2, b: Vec2)
    ensures Sub(Add(a, b), b) == a
    ensures Add(Sub(a, b), b) == a
    ensures Add(a, b) == Vec2(a.x + b.x, a.y + b.y)
    ensures Sub(a, b) == Vec2(a.x - b.x, a.y - b.y)
  {
  }
}

/**
 * Exact-arithmetic stand-ins for the numeric conversions the backend relies on:
 * Rust's `f64 as i64` cast, `f64::max` / `f64::min`, and MySQL's ROUND.
 * Floating-point values are modelled as exact reals.
 */
module Numeric {

  const I64_MIN: int := -0x8000_0000_0000_0000
  const I64_MAX: int := 0x7FFF_FFFF_FFFF_FFFF

  predicate InI64(x: int) {
    I64_MIN <= x <= I64_MAX
  }

  /** Truncation toward zero: the integer nearest to x on the side of zero. */
  function Trunc(x: real): (r: int)
    ensures 0.0 <= x ==> 0 <= r && r as real <= x < r as real + 1.0
    ensures x <= 0.0 ==> r <= 0 && r as real - 1.0 < x <= r as real
  {
    if x >= 0.0 then x.Floor else -((-x).Floor)
  }

  /**
   * Rust's `x as i64` for a finite x: rounds toward zero and saturates at the
   * bounds of i64.
   */
  function AsI64(x: real): (r: int)
    ensures InI64(r)
    ensures 0.0 <= x ==> 0 <= r && r as real <= x
    ensures 0.0 <= x < I64_MAX as real + 1.0 ==> x < r as real + 1.0
    ensures x <= 0.0 ==> r <= 0 && x <= r as real
    ensures I64_MIN as real - 1.0 < x <= 0.0 ==> r as real - 1.0 < x
    ensures I64_MIN as real - 1.0 < x < I64_MAX as real + 1.0 ==> r == Trunc(x)
    ensures x >= I64_MAX as real + 1.0 ==> r == I64_MAX
    ensures x <= I64_MIN as real - 1.0 ==> r == I64_MIN
  {
    var t := Trunc(x);
    if t < I64_MIN then I64_MIN else if t > I64_MAX then I64_MAX else t
  }

  /**
   * MySQL's ROUND on a DOUBLE, to the nearest integer. Ties are broken to the
   * even neighbour, the behaviour of the C library's `rint` that MySQL uses on
   * common platforms.
   */
  function RoundHalfEven(x: real): (r: int)
    ensures -0.5 <= r as real - x <= 0.5
    ensures (r as real - x == 0.5 || x - r as real == 0.5) ==> r % 2 == 0
  {
    var f := x.Floor;
    var d := x - f as real;
    if d < 0.5 then f
    else if d > 0.5 then f + 1
    else if f % 2 == 0 then f
    else f + 1
  }

  /** The product of two non-negative reals is non-negative. */
  lemma MulNonNegative(x: real, y: real)
    requires 0.0 <= x && 0.0 <= y
    ensures 0.0 <= x * y
  {
  }

  /** `f64::max` on non-NaN operands. */
  function Max(a: real, b: real): (r: real)
    ensures r >= a && r >= b && (r == a || r == b)
  {
    if a >= b then a else b
  }

  /** `f64::min` and SQL `LEAST` on non-NaN operands. */
  function Min(a: real, b: real): (r: real)
    ensures r <= a && r <= b && (r == a || r == b)
  {
    if a <= b then a else b
  }
}

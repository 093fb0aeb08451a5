/**
 C arithmetic that the renderer relies on, written out over unbounded
 integers and exact reals: the `(int)` cast of a float truncates toward
 zero, integer `/` truncates toward zero, and `fabs` is the absolute value.
 Dafny's own `/` on `int` is Euclidean, so it is not used for C division.
 */
module CArith {

  /** `fabs`. */
  function Fabs(r: real): (a: real)
    ensures a >= 0.0
    ensures a == r || a == -r
  {
    if r < 0.0 then -r else r
  }

  /** The C conversion `(int)r`: the integer part, rounding toward zero. */
  function Trunc(r: real): (t: int)
    ensures r >= 0.0 ==> t as real <= r < t as real + 1.0
    ensures r < 0.0 ==> t as real - 1.0 < r <= t as real
  {
    if r >= 0.0 then r.Floor else -((-r).Floor)
  }

  /** The C quotient `a / b` for a positive divisor: rounds toward zero. */
  function Quot(a: int, b: int): (q: int)
    requires b > 0
    ensures a >= 0 ==> q * b <= a < q * b + b
    ensures a < 0 ==> q * b - b < a <= q * b
  {
    if a >= 0 then a / b else -((-a) / b)
  }

}

/**
 * Python's built-in `round` applied to a number, as the trainer code uses it for
 * power targets and expected-power bands: the nearest integer, and on an exact
 * tie the even one ("banker's rounding"). Binary floating point is modelled by
 * exact reals.
 */
module Rounding {

  /** The nearest integer to `r`; of two equally near integers, the even one. */
  function RoundHalfEven(r: real): (n: int)
    ensures r - 0.5 <= n as real <= r + 0.5
    ensures (n as real - r == 0.5 || r - n as real == 0.5) ==> n % 2 == 0
  {
    var f := r.Floor;
    var d := r - f as real;
    if d < 0.5 then f
    else if d > 0.5 then f + 1
    else if f % 2 == 0 then f else f + 1
  }

  /** The two properties in RoundHalfEven's contract determine its result. */
  lemma RoundHalfEvenUnique(r: real, n: int)
    requires r - 0.5 <= n as real <= r + 0.5
    requires (n as real - r == 0.5 || r - n as real == 0.5) ==> n % 2 == 0
    ensures n == RoundHalfEven(r)
  {
  }

  /** Rounding an integral value gives that integer back. */
  lemma RoundOfInteger(k: int)
    ensures RoundHalfEven(k as real) == k
  {
    RoundHalfEvenUnique(k as real, k);
  }

  /** Rounding is monotone. */
  lemma RoundMonotone(a: real, b: real)
    requires a <= b
    ensures RoundHalfEven(a) <= RoundHalfEven(b)
  {
  }
}

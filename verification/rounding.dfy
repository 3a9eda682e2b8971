/**
 * Python's `round(x, 2)`: the nearest multiple of 0.01, ties going to the even
 * neighbour. It is modelled on exact reals, so the binary representation of
 * floating-point values plays no part.
 */
module Rounding {

  /** `x` is a whole number of hundredths. */
  predicate IsCents(x: real) {
    (x * 100.0).Floor as real == x * 100.0
  }

  /** The integer nearest to `x`; a tie goes to the even integer. */
  function RoundHalfEven(x: real): (n: int)
    ensures -0.5 <= n as real - x <= 0.5
    ensures n as real == x ==> n == x.Floor
  {
    var f := x.Floor;
    var frac := x - f as real;
    if frac < 0.5 then f
    else if frac > 0.5 then f + 1
    else if f % 2 == 0 then f
    else f + 1
  }

  /** `round(x, 2)`. */
  function Round2(x: real): (r: real)
    ensures IsCents(r)
    ensures -0.005 <= r - x <= 0.005
  {
    var n := RoundHalfEven(x * 100.0);
    var r := n as real / 100.0;
    assert r * 100.0 == n as real;
    assert (n as real).Floor == n;
    r
  }

  lemma RoundHalfEvenMonotone(x: real, y: real)
    requires x <= y
    ensures RoundHalfEven(x) <= RoundHalfEven(y)
  {
    var fx, fy := x.Floor, y.Floor;
    if fx == fy {
      assert x - fx as real <= y - fy as real;
    } else {
      assert fx < fy;
    }
  }

  /** Rounding never reverses the order of two values. */
  lemma Round2Monotone(x: real, y: real)
    requires x <= y
    ensures Round2(x) <= Round2(y)
  {
    RoundHalfEvenMonotone(x * 100.0, y * 100.0);
  }

  /** A value that already has at most two decimals is left as it is. */
  lemma Round2KeepsCents(x: real)
    requires IsCents(x)
    ensures Round2(x) == x
  {
    var n := (x * 100.0).Floor;
    assert RoundHalfEven(x * 100.0) == n;
  }

  /**
   * If `x` lies between two values with at most two decimals, so does its
   * rounding.
   */
  lemma Round2WithinCents(x: real, lo: real, hi: real)
    requires IsCents(lo) && IsCents(hi)
    requires lo <= x <= hi
    ensures lo <= Round2(x) <= hi
  {
    Round2Monotone(lo, x);
    Round2Monotone(x, hi);
    Round2KeepsCents(lo);
    Round2KeepsCents(hi);
  }
}

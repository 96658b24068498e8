/** Python's numeric built-ins as the core uses them: `int()` on a float (truncation
    toward zero), `max(lo, min(hi, n))` and `round(x, 2)`. Floats are modelled as exact
    reals, so binary representation error is not part of this model. */
module Numeric {

  /** Python's `int(x)` for a float `x`: truncation toward zero. */
  function Trunc(x: real): (n: int)
    ensures x >= 0.0 ==> n as real <= x < n as real + 1.0
    ensures x < 0.0 ==> n as real - 1.0 < x <= n as real
  {
    if x >= 0.0 then x.Floor else -((-x).Floor)
  }

  lemma {:induction false} TruncMonotone(x: real, y: real)
    requires x <= y
    ensures Trunc(x) <= Trunc(y)
  {
  }

  /** Python's `max(lo, min(hi, n))`. */
  function Clamp(n: int, lo: int, hi: int): (r: int)
    requires lo <= hi
    ensures lo <= r <= hi
    ensures lo <= n <= hi ==> r == n
    ensures n < lo ==> r == lo
    ensures n > hi ==> r == hi
  {
    if n > hi then hi else if n < lo then lo else n
  }

  lemma {:induction false} ClampMonotone(m: int, n: int, lo: int, hi: int)
    requires lo <= hi && m <= n
    ensures Clamp(m, lo, hi) <= Clamp(n, lo, hi)
  {
  }

  /** Rounding to the nearest integer, ties to the even one. */
  function RoundHalfEven(y: real): (n: int)
    ensures y - 0.5 <= n as real <= y + 0.5
  {
    var f := y.Floor;
    var d := y - f as real;
    if d < 0.5 then f
    else if d > 0.5 then f + 1
    else if f % 2 == 0 then f
    else f + 1
  }

  /** Python's `round(x, 2)` on the exact decimal value of `x`. */
  function Round2(x: real): (r: real)
    ensures x - 0.005 <= r <= x + 0.005
  {
    RoundHalfEven(x * 100.0) as real / 100.0
  }

  lemma {:induction false} RoundHalfEvenMonotone(x: real, y: real)
    requires x <= y
    ensures RoundHalfEven(x) <= RoundHalfEven(y)
  {
    var fx, fy := x.Floor, y.Floor;
    if fx < fy {
      assert RoundHalfEven(x) <= fx + 1 <= fy;
    }
  }

  /** Rounding never reverses the order of two values. */
  lemma {:induction false} Round2Monotone(x: real, y: real)
    requires x <= y
    ensures Round2(x) <= Round2(y)
  {
    RoundHalfEvenMonotone(x * 100.0, y * 100.0);
  }

  /** A value that already has at most two decimals is left unchanged. */
  lemma {:induction false} Round2OfCents(k: int)
    ensures Round2(k as real / 100.0) == k as real / 100.0
  {
    var y := (k as real / 100.0) * 100.0;
    assert y == k as real;
    assert y.Floor == k;
  }
}

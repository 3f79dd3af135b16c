/**
 Rounding to a number of decimals, on exact reals: `toFixed` picks the nearest multiple and, of two,
 the one further from zero (section 15.7.4.5 of ECMA-262, edition 5.1, which rounds the magnitude).
 */
module Rounding {

  function Pow10(n: nat): (p: int)
    ensures p >= 1
  {
    if n == 0 then 1 else 10 * Pow10(n - 1)
  }

  function Abs(x: real): real { if x < 0.0 then -x else x }

  /** The nearest integer to a non-negative real, a half rounding up. */
  function Nearest(x: real): (n: int)
    requires x >= 0.0
    ensures n >= 0
  {
    (x + 0.5).Floor
  }

  /** Math.round: a half rounds up, also below zero. */
  function MathRound(x: real): int { (x + 0.5).Floor }

  /** The integer that toFixed(decimals) prints, sign apart, before it places the point. */
  function Scaled(x: real, decimals: nat): nat {
    Nearest(Abs(x) * Pow10(decimals) as real)
  }

  /** The decimal whose digits are `n` with the point `decimals` from the right. */
  function Ratio(n: int, decimals: nat): real { n as real / Pow10(decimals) as real }

  /** The value of x.toFixed(decimals). */
  function Fixed(x: real, decimals: nat): real {
    var m := Ratio(Scaled(x, decimals), decimals);
    if x < 0.0 then -m else m
  }

  function HalfUnit(decimals: nat): real { 0.5 / Pow10(decimals) as real }

  lemma CancelScale(a: real, b: real, p: real)
    requires p > 0.0 && a * p <= b * p
    ensures a <= b
  {
    if a > b { MulPositive(a - b, p); }
  }

  lemma MulPositive(a: real, p: real)
    requires a > 0.0 && p > 0.0
    ensures a * p > 0.0
  {
  }

  lemma DivMul(a: real, p: real)
    requires p > 0.0
    ensures (a / p) * p == a
  {
  }

  lemma Distribute(a: real, b: real, p: real)
    ensures (a - b) * p == a * p - b * p
    ensures (-a) * p == -(a * p)
  {
  }

  lemma NearestBounds(y: real)
    requires y >= 0.0
    ensures y - 0.5 < Nearest(y) as real <= y + 0.5
  {
  }

  lemma ScaledBounds(x: real, decimals: nat)
    ensures var p := Pow10(decimals) as real;
            Abs(x) * p >= 0.0 && Abs(x) * p - 0.5 < Scaled(x, decimals) as real <= Abs(x) * p + 0.5
  {
    var p := Pow10(decimals) as real;
    if Abs(x) > 0.0 { MulPositive(Abs(x), p); }
    NearestBounds(Abs(x) * p);
  }

  lemma FixedTimes(x: real, decimals: nat)
    ensures Fixed(x, decimals) * Pow10(decimals) as real
            == if x < 0.0 then -(Scaled(x, decimals) as real) else Scaled(x, decimals) as real
  {
    hide Scaled, Pow10;
    var p := Pow10(decimals) as real;
    var n := Scaled(x, decimals) as real;
    DivMul(n, p);
    Distribute(n / p, 0.0, p);
  }

  lemma FixedError(x: real, decimals: nat)
    ensures Abs(Fixed(x, decimals) - x) <= HalfUnit(decimals)
  {
    var p := Pow10(decimals) as real;
    FixedTimes(x, decimals);
    ScaledBounds(x, decimals);
    DivMul(0.5, p);
    hide Fixed, Scaled, Pow10;
    ErrorFromScaled(Fixed(x, decimals), x, p, 0.5 / p, Scaled(x, decimals) as real);
  }

  lemma ErrorFromScaled(f: real, x: real, p: real, h: real, n: real)
    requires p > 0.0 && h * p == 0.5
    requires Abs(x) * p - 0.5 <= n <= Abs(x) * p + 0.5
    requires f * p == if x < 0.0 then -n else n
    ensures Abs(f - x) <= h
  {
    Distribute(x, 0.0, p);
    assert x * p - 0.5 <= f * p <= x * p + 0.5;
    Distribute(f, x, p);
    CancelScale(f - x, h, p);
    Distribute(x, f, p);
    CancelScale(x - f, h, p);
  }

  lemma SignOfProduct(x: real, n: int, p: real)
    requires p > 0.0 && x * p == n as real
    ensures x < 0.0 <==> n < 0
  {
    Distribute(x, 0.0, p);
    if x < 0.0 { MulPositive(-x, p); } else if x > 0.0 { MulPositive(x, p); }
  }

  lemma AbsTimes(x: real, n: int, p: real)
    requires p > 0.0 && x * p == n as real
    ensures Abs(x) * p == (if n < 0 then -n else n) as real
  {
    SignOfProduct(x, n, p);
    Distribute(x, 0.0, p);
  }

  lemma ScaledExact(x: real, n: int, decimals: nat)
    requires x * Pow10(decimals) as real == n as real
    ensures Scaled(x, decimals) == if n < 0 then -n else n
  {
    AbsTimes(x, n, Pow10(decimals) as real);
    ScaledBounds(x, decimals);
    hide Scaled, Pow10, Abs;
    IntegerWithin(Abs(x) * Pow10(decimals) as real, if n < 0 then -n else n, Scaled(x, decimals));
  }

  lemma ScaledRatio(n: int, decimals: nat)
    ensures Scaled(Ratio(n, decimals), decimals) == if n < 0 then -n else n
  {
    RatioTimes(n, decimals);
    ScaledExact(Ratio(n, decimals), n, decimals);
  }

  /** A value that already has that many decimals is not changed. */
  lemma FixedExact(n: int, decimals: nat)
    ensures Fixed(Ratio(n, decimals), decimals) == Ratio(n, decimals)
  {
    hide Fixed, Scaled, Ratio, Pow10;
    RatioTimes(n, decimals);
    ScaledRatio(n, decimals);
    FixedTimes(Ratio(n, decimals), decimals);
    SameValue(Fixed(Ratio(n, decimals), decimals), Ratio(n, decimals), Pow10(decimals) as real, n,
              Scaled(Ratio(n, decimals), decimals));
  }

  lemma RatioTimes(n: int, decimals: nat)
    ensures Ratio(n, decimals) * Pow10(decimals) as real == n as real
  {
    DivMul(n as real, Pow10(decimals) as real);
  }

  lemma SameValue(f: real, x: real, p: real, n: int, m: int)
    requires p > 0.0 && x * p == n as real && m == (if n < 0 then -n else n)
    requires f * p == if x < 0.0 then -(m as real) else m as real
    ensures f == x
  {
    SignOfProduct(x, n, p);
    SameScaled(f, x, p);
  }

  lemma IntegerWithin(y: real, n: int, m: int)
    requires y == n as real && y - 0.5 < m as real <= y + 0.5
    ensures m == n
  {
  }

  lemma SameScaled(a: real, b: real, p: real)
    requires p > 0.0 && a * p == b * p
    ensures a == b
  {
    CancelScale(a, b, p);
    CancelScale(b, a, p);
  }
}

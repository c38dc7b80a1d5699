/** Numeric helpers shared by the rider model: the constant pi, absolute
    value, minimum and maximum, and JavaScript's truncating remainder `%`
    on reals. */
module Numeric {

  /** Rough bounds on JavaScript's Math.PI. Nothing in the model depends on
      its exact value. */
  type PiRange = x: real | 3.14159 < x < 3.14160 witness 3.141592653589793

  /** Math.PI, left abstract: only the bounds of PiRange are known about it. */
  const PiValue: PiRange

  const Pi: real := PiValue

  /** A 2D point or vector, as p2 stores positions, pivots and forces. */
  datatype Vec2 = Vec2(x: real, y: real)

  function Abs(x: real): (r: real)
    ensures r >= 0.0
    ensures r == x || r == -x
  {
    if x < 0.0 then -x else x
  }

  /** Math.max of two numbers. */
  function Max(a: real, b: real): (r: real)
    ensures r >= a && r >= b
    ensures r == a || r == b
  {
    if a >= b then a else b
  }

  /** Math.min of two numbers. */
  function Min(a: real, b: real): (r: real)
    ensures r <= a && r <= b
    ensures r == a || r == b
  {
    if a <= b then a else b
  }

  /** Rounding toward zero, the quotient JavaScript's `%` is based on. */
  function Trunc(x: real): (t: int)
    ensures x >= 0.0 ==> 0.0 <= t as real <= x < t as real + 1.0
    ensures x < 0.0 ==> t as real - 1.0 < x <= t as real <= 0.0
  {
    if x >= 0.0 then x.Floor else -((-x).Floor)
  }

  /** `d` is a whole number of `m`s. */
  predicate IsMultiple(d: real, m: real)
    requires m > 0.0
  {
    (d / m).Floor as real == d / m
  }

  /** JavaScript's `x % m` for a positive modulus: strictly inside (-m, m),
      carrying the sign of the dividend, and differing from the dividend by a
      whole number of `m`s. */
  function JsRem(x: real, m: real): (r: real)
    requires m > 0.0
    ensures -m < r < m
    ensures x >= 0.0 ==> r >= 0.0
    ensures x <= 0.0 ==> r <= 0.0
    ensures IsMultiple(x - r, m)
  {
    var q := Trunc(x / m);
    QuotientBounds(x, m, q);
    WholeQuotient(q, m);
    x - q as real * m
  }

  /** Multiplying the truncated quotient back by the modulus lands within one
      modulus of the dividend, on the dividend's side of zero. */
  lemma QuotientBounds(x: real, m: real, q: int)
    requires m > 0.0
    requires q == Trunc(x / m)
    ensures x >= 0.0 ==> 0.0 <= x - q as real * m < m
    ensures x < 0.0 ==> -m < x - q as real * m <= 0.0
  {
    var t := x / m;
    assert x == t * m;
    assert x >= 0.0 <==> t >= 0.0;
    ScaledBracket(x, t, m, q as real);
  }

  /** The truncation bracket `qr` of a quotient `t`, scaled back by the
      divisor. */
  lemma ScaledBracket(x: real, t: real, m: real, qr: real)
    requires m > 0.0
    requires x == t * m
    requires x >= 0.0 <==> t >= 0.0
    requires t >= 0.0 ==> qr <= t < qr + 1.0
    requires t < 0.0 ==> qr - 1.0 < t <= qr
    ensures x >= 0.0 ==> 0.0 <= x - qr * m < m
    ensures x < 0.0 ==> -m < x - qr * m <= 0.0
  {
    var d := t - qr;
    assert x - qr * m == d * m;
    if t >= 0.0 {
      FractionScaled(d, m);
    } else {
      NegativeFractionScaled(d, m);
    }
  }

  lemma FractionScaled(d: real, m: real)
    requires m > 0.0
    requires 0.0 <= d < 1.0
    ensures 0.0 <= d * m < m
  {
    assert m - d * m == (1.0 - d) * m;
  }

  lemma NegativeFractionScaled(d: real, m: real)
    requires m > 0.0
    requires -1.0 < d <= 0.0
    ensures -m < d * m <= 0.0
  {
    assert d * m + m == (d + 1.0) * m;
  }

  lemma WholeQuotient(q: int, m: real)
    requires m > 0.0
    ensures IsMultiple(q as real * m, m)
  {
    assert (q as real * m) / m == q as real;
  }

  /** Adding or removing one modulus keeps a whole number of moduli. */
  lemma MultipleShift(d: real, m: real)
    requires m > 0.0
    requires IsMultiple(d, m)
    ensures IsMultiple(d + m, m)
    ensures IsMultiple(d - m, m)
  {
    var k := d / m;
    DivideOut(d, m);
    Distribute(k, 1.0, m);
    Distribute(k, -1.0, m);
    DivideBack(d + m, k + 1.0, m);
    DivideBack(d - m, k - 1.0, m);
    assert (k + 1.0).Floor == k.Floor + 1;
    assert (k - 1.0).Floor == k.Floor - 1;
  }

  /** The only whole number of moduli strictly inside (-m, m) is zero. */
  lemma SmallMultipleIsZero(d: real, m: real)
    requires m > 0.0
    requires IsMultiple(d, m)
    requires -m < d < m
    ensures d == 0.0
  {
    var k := d / m;
    assert d == k * m;
    if k >= 1.0 {
      ProductAtLeast(k - 1.0, m);
    } else if k <= -1.0 {
      ProductAtLeast(-1.0 - k, m);
    }
    assert -1.0 < k < 1.0;
    assert k.Floor == 0;
  }

  lemma DivideOut(d: real, m: real)
    requires m > 0.0
    ensures d == (d / m) * m
  {
  }

  lemma Distribute(k: real, c: real, m: real)
    ensures (k + c) * m == k * m + c * m
  {
  }

  lemma DivideBack(a: real, k: real, m: real)
    requires m > 0.0
    requires a == k * m
    ensures a / m == k
  {
  }

  lemma ProductAtLeast(c: real, m: real)
    requires m > 0.0 && c >= 0.0
    ensures c * m >= 0.0
  {
  }
}

/** Integer arithmetic that the source does with floats or with Python's
    integer operators. */
module Numeric {

  function Min(a: int, b: int): int { if a <= b then a else b }

  function Max(a: int, b: int): int { if a >= b then a else b }

  /** Python's `int(x)` on a quotient: truncation toward zero. */
  function TruncDiv(a: int, b: int): (q: int)
    requires b > 0
    ensures a >= 0 ==> q == a / b
    ensures a < 0 ==> q == -((-a) / b)
    ensures q * b <= a || a < 0
    ensures -a < (-q + 1) * b || a >= 0
  {
    if a >= 0 then a / b else -((-a) / b)
  }

  /** Multiplying by a non-negative factor keeps the order. */
  lemma {:induction false} MulLeft(i: int, a: int, b: int)
    requires i >= 0 && a <= b
    ensures i * a <= i * b
    decreases i
  {
    if i > 0 {
      MulLeft(i - 1, a, b);
      assert i * a == (i - 1) * a + a;
      assert i * b == (i - 1) * b + b;
    }
  }

  /** A quotient is at least q when the dividend is at least q * d. */
  lemma DivAtLeast(x: int, q: int, d: int)
    requires d > 0 && q * d <= x
    ensures q <= x / d
  {
    var r := x / d;
    if r < q {
      MulLeft(d, r + 1, q);
    }
  }

  /** A quotient is at most q when the dividend is below (q + 1) * d. */
  lemma DivBelow(x: int, q: int, d: int)
    requires d > 0 && x < (q + 1) * d
    ensures x / d <= q
  {
    var r := x / d;
    if r > q {
      MulLeft(d, q + 1, r);
    }
  }

  lemma MulMonotone(a: nat, b: nat)
    requires a <= b
    ensures a * a <= b * b
  {
    assert a * a <= a * b <= b * b;
  }

  lemma IsqrtStep(n: nat, q: nat, s: nat)
    requires q == n / 4
    requires s * s <= q < (s + 1) * (s + 1)
    ensures (2 * s) * (2 * s) <= n < (2 * s + 2) * (2 * s + 2)
  {
    var a := s * s;
    var b := (s + 1) * (s + 1);
    assert (2 * s) * (2 * s) == 4 * a;
    assert (2 * s + 2) * (2 * s + 2) == 4 * b;
    assert q + 1 <= b;
    assert n <= 4 * q + 3;
  }

  /** The integer square root: the largest r with r * r <= n. */
  function Isqrt(n: nat): (r: nat)
    ensures r * r <= n < (r + 1) * (r + 1)
    decreases n
  {
    if n < 2 then n
    else
      var s := Isqrt(n / 4);
      IsqrtStep(n, n / 4, s);
      if (2 * s + 1) * (2 * s + 1) <= n then 2 * s + 1 else 2 * s
  }

  /** The root of n, when at most c, is below the root of any m of at
      least n + 2c + 1. */
  lemma IsqrtGrows(n: nat, m: nat, c: nat)
    requires Isqrt(n) <= c && n + 2 * c + 1 <= m
    ensures Isqrt(n) < Isqrt(m)
  {
    var t, s := Isqrt(n), Isqrt(m);
    if s <= t {
      MulMonotone(s + 1, t + 1);
      assert false;
    }
  }

  /** Any r with r*r <= n < (r+1)*(r+1) is the integer square root. */
  lemma IsqrtUnique(n: nat, r: nat)
    requires r * r <= n < (r + 1) * (r + 1)
    ensures Isqrt(n) == r
  {
    var m := Isqrt(n);
    if m < r {
      MulMonotone(m + 1, r);
    } else if r < m {
      MulMonotone(r + 1, m);
    }
  }

  lemma IsqrtMonotone(a: nat, b: nat)
    requires a <= b
    ensures Isqrt(a) <= Isqrt(b)
  {
    if Isqrt(b) < Isqrt(a) {
      MulMonotone(Isqrt(b) + 1, Isqrt(a));
    }
  }

  /** Python's `round(a / b)` for b > 0: the nearest integer, ties to the
      even one, computed exactly on integers. */
  function RoundHalfEven(a: int, b: int): (r: int)
    requires b > 0
    ensures -b <= 2 * (a - r * b) <= b
    ensures (2 * (a - r * b) == b || 2 * (a - r * b) == -b) ==> r % 2 == 0
  {
    var q := a / b;
    var rem := a % b;
    assert a == q * b + rem && 0 <= rem < b;
    assert a - q * b == rem && a - (q + 1) * b == rem - b;
    if 2 * rem < b then q
    else if 2 * rem > b then q + 1
    else if q % 2 == 0 then q
    else q + 1
  }

  /** An integer t whose t * b is within b / 2 of a is within 1/2 of a / b. */
  lemma WithinHalf(x: real, t: int, a: int, b: int)
    requires b > 0 && x * b as real == a as real
    requires -b <= 2 * (a - t * b) <= b
    ensures -0.5 <= t as real - x <= 0.5
  {
    var d := t as real - x;
    assert 2.0 * d * b as real == (2 * (t * b - a)) as real;
    NonPositiveFactor(2.0 * d - 1.0, b as real);
    NonPositiveFactor(-2.0 * d - 1.0, b as real);
  }

  /** With b positive, u * b is non-positive only if u is. */
  lemma NonPositiveFactor(u: real, b: real)
    requires b > 0.0 && u * b <= 0.0
    ensures u <= 0.0
  {
  }
}

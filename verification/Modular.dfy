/** Congruence of integers modulo a positive modulus, with explicit quotients.

    Two integers are congruent when they leave the same remainder.  Every lemma works
    through an explicit quotient, so that callers never reason about `%` themselves. */
module Modular {

  ghost predicate Cong(a: int, b: int, m: int)
    requires m > 0
  {
    a % m == b % m
  }

  lemma RemainderUnique(a: int, q: int, r: int, m: int)
    requires 0 <= r < m
    requires a == q * m + r
    ensures a % m == r
  {
    var d := a / m - q;
    assert d * m == r - a % m;
    assert d >= 1 ==> d * m >= m;
    assert d <= -1 ==> d * m <= -m;
  }

  /** Numbers that differ by a multiple of the modulus are congruent. */
  lemma CongFromQuotient(a: int, b: int, k: int, m: int)
    requires m > 0
    requires a == b + k * m
    ensures Cong(a, b, m)
  {
    var q := b / m;
    assert b == q * m + b % m;
    assert a == (q + k) * m + b % m;
    RemainderUnique(a, q + k, b % m, m);
  }

  /** The converse: congruent numbers differ by a multiple, which is returned. */
  lemma CongQuotient(a: int, b: int, m: int) returns (k: int)
    requires m > 0
    requires Cong(a, b, m)
    ensures a == b + k * m
  {
    k := a / m - b / m;
    assert a == (a / m) * m + a % m;
    assert b == (b / m) * m + b % m;
  }

  lemma CongResidue(a: int, m: int)
    requires m > 0
    ensures Cong(a % m, a, m)
  {
    CongFromQuotient(a % m, a, -(a / m), m);
  }

  lemma CongAdd(a: int, a': int, b: int, b': int, m: int)
    requires m > 0
    requires Cong(a, a', m) && Cong(b, b', m)
    ensures Cong(a + b, a' + b', m)
  {
    var k := CongQuotient(a, a', m);
    var l := CongQuotient(b, b', m);
    assert a + b == (a' + b') + (k + l) * m;
    CongFromQuotient(a + b, a' + b', k + l, m);
  }

  lemma CongSub(a: int, a': int, b: int, b': int, m: int)
    requires m > 0
    requires Cong(a, a', m) && Cong(b, b', m)
    ensures Cong(a - b, a' - b', m)
  {
    var k := CongQuotient(a, a', m);
    var l := CongQuotient(b, b', m);
    assert a - b == (a' - b') + (k - l) * m;
    CongFromQuotient(a - b, a' - b', k - l, m);
  }

  lemma CongMul(a: int, a': int, b: int, b': int, m: int)
    requires m > 0
    requires Cong(a, a', m) && Cong(b, b', m)
    ensures Cong(a * b, a' * b', m)
  {
    var k := CongQuotient(a, a', m);
    var l := CongQuotient(b, b', m);
    var q := k * b' + l * a' + k * l * m;
    MulExpand(a', k, b', l, m);
    CongFromQuotient(a * b, a' * b', q, m);
  }

  lemma MulExpand(a: int, k: int, b: int, l: int, m: int)
    ensures (a + k * m) * (b + l * m) == a * b + (k * b + l * a + k * l * m) * m
  {
    calc {
      (a + k * m) * (b + l * m);
      a * b + a * (l * m) + (k * m) * b + (k * m) * (l * m);
      a * b + (l * a) * m + (k * b) * m + (k * l * m) * m;
      a * b + (k * b + l * a + k * l * m) * m;
    }
  }

  /** Powers with a natural exponent. */
  ghost function Pow(b: int, e: nat): int
    decreases e, b
  {
    if e == 0 then 1 else b * Pow(b, e - 1)
  }

  lemma {:induction false} PowAdd(b: int, d: nat, e: nat)
    ensures Pow(b, d + e) == Pow(b, d) * Pow(b, e)
    decreases d
  {
    if d > 0 {
      PowAdd(b, d - 1, e);
      assert b * (Pow(b, d - 1) * Pow(b, e)) == b * Pow(b, d - 1) * Pow(b, e);
    }
  }

  lemma MulSwap(b: int, c: int, x: int, y: int)
    ensures (b * c) * (x * y) == (b * x) * (c * y)
  {
    calc {
      (b * c) * (x * y);
      b * (c * (x * y));
      b * (x * (c * y));
      (b * x) * (c * y);
    }
  }

  lemma {:induction false} PowMulBase(b: int, c: int, e: nat)
    ensures Pow(b * c, e) == Pow(b, e) * Pow(c, e)
  {
    if e > 0 {
      PowMulBase(b, c, e - 1);
      MulSwap(b, c, Pow(b, e - 1), Pow(c, e - 1));
    }
  }

  lemma {:induction false} PowPow(b: int, d: nat, e: nat)
    ensures 0 <= d * e
    ensures Pow(Pow(b, d), e) == Pow(b, d * e)
    decreases e
  {
    if e > 0 {
      PowPow(b, d, e - 1);
      assert d * e == d + d * (e - 1);
      PowAdd(b, d, d * (e - 1));
    }
  }

  lemma {:induction false} PowOfOne(e: nat)
    ensures Pow(1, e) == 1
  {
    if e > 0 { PowOfOne(e - 1); }
  }

  lemma {:induction false} CongPow(a: int, b: int, e: nat, m: int)
    requires m > 0
    requires Cong(a, b, m)
    ensures Cong(Pow(a, e), Pow(b, e), m)
  {
    if e > 0 {
      CongPow(a, b, e - 1, m);
      CongMul(a, b, Pow(a, e - 1), Pow(b, e - 1), m);
    }
  }

  /** Division that truncates toward zero, as the program's `/` does. */
  function TruncDiv(x: int, d: int): (q: int)
    requires d > 0
    ensures x >= 0 ==> 0 <= q <= x && q * d <= x < (q + 1) * d
    ensures x < 0 ==> x <= q <= 0 && (q - 1) * d < x <= q * d
  {
    var q := (if x >= 0 then x else -x) / d;
    QuotientBounds(if x >= 0 then x else -x, d);
    if x >= 0 then q else -q
  }

  lemma QuotientBounds(x: int, d: int)
    requires x >= 0 && d > 0
    ensures 0 <= x / d <= x && x / d * d <= x < (x / d + 1) * d
  {
    var q := x / d;
    assert x == q * d + x % d;
    if q < 0 {
      ProductBelow(-q, d);
    } else {
      ProductBelow(q, d);
    }
  }

  lemma ProductBelow(q: int, d: int)
    requires q >= 0 && d > 0
    ensures q <= q * d && (q > 0 ==> d <= q * d)
    ensures -q * d == -(q * d)
  {
    ProductNat(q, d - 1);
    assert q * (d - 1) == q * d - q;
    if q > 0 {
      ProductNat(q - 1, d);
      assert (q - 1) * d == q * d - d;
    }
  }

  lemma {:induction false} ProductNat(a: nat, b: nat)
    ensures 0 <= a * b
  {
    if a > 0 {
      ProductNat(a - 1, b);
      assert a * b == (a - 1) * b + b;
    }
  }
}

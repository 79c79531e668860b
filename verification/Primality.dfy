/** Primality from an element of large prime order, after Pocklington: if such an element stays away
    from 1 modulo every divisor, the order divides every prime divisor less 1. */
module Primality {
  import opened Modular
  import opened Fermat

  ghost predicate Divides(d: nat, n: nat)
    requires d > 0
  {
    n % d == 0
  }

  // ----------------------------------------------------------------------------- divisors

  lemma DividesFrom(d: nat, k: int, n: nat)
    requires d > 0 && n == k * d
    ensures Divides(d, n)
  {
    RemainderUnique(n, k, 0, d);
  }

  /** Congruence goes down to divisors. */
  lemma CongDown(a: int, b: int, d: nat, n: nat)
    requires 0 < d && 0 < n && Divides(d, n) && Cong(a, b, n)
    ensures Cong(a, b, d)
  {
    var k := CongQuotient(a, b, n);
    assert n == n / d * d;
    Associate(k, n / d, d);
    CongFromQuotient(a, b, k * (n / d), d);
  }

  lemma Associate(a: int, b: int, c: int)
    ensures a * (b * c) == a * b * c
  {
  }

  lemma NotPositive(k: int, d: nat)
    ensures k <= 0 ==> k * d <= 0
  {
    if k <= 0 {
      ProductNat(-k, d);
      assert -k * d == -(k * d);
    }
  }

  lemma Positive(k: int, d: nat)
    requires d > 0 && k * d > 0
    ensures 0 < k <= k * d && (d > 1 ==> k < k * d)
  {
    NotPositive(k, d);
    ProductNat(k - 1, d - 1);
    assert (k - 1) * (d - 1) == k * d - k - d + 1;
  }

  /** The least divisor from d on is prime, if there is none below. */
  lemma {:induction false} LeastDivisor(n: nat, d: nat) returns (p: nat)
    requires 1 < d <= n && forall i :: 1 < i < d ==> n % i != 0
    ensures d <= p <= n && Divides(p, n) && IsPrime(p)
    decreases n - d
  {
    if n % d == 0 {
      p := d;
      forall i | 1 < i < d ensures d % i != 0 {
        if d % i == 0 {
          Transitive(i, d, n);
        }
      }
    } else {
      RemainderUnique(n, 1, 0, n);
      p := LeastDivisor(n, d + 1);
    }
  }

  lemma Transitive(i: nat, d: nat, n: nat)
    requires i > 0 && d > 0 && Divides(i, d) && Divides(d, n)
    ensures Divides(i, n)
  {
    assert d == d / i * i && n == n / d * d;
    Associate(n / d, d / i, i);
    DividesFrom(i, n / d * (d / i), n);
  }

  ghost predicate NoneBelow(n: nat, k: nat) {
    forall d :: 1 < d < k ==> n % d != 0
  }

  lemma OneMore(n: nat, k: nat)
    requires k > 1 && NoneBelow(n, k) && n % k != 0
    ensures NoneBelow(n, k + 1)
  {
  }

  /** No divisor up to the root, no divisor. */
  lemma PrimeByTrial(n: nat, k: nat)
    requires n > 1 && NoneBelow(n, k) && n < k * k
    ensures IsPrime(n)
  {
    forall d | 1 < d < n ensures n % d != 0 {
      if n % d == 0 {
        var e := n / d;
        assert n == e * d;
        Positive(e, d);
        Commute(e, d);
        DividesFrom(e, d, n);
        assert d >= k && (e > 1 ==> e >= k);
        AtLeastSquare(e, d, k);
      }
    }
  }

  lemma AtLeastSquare(e: nat, d: nat, k: nat)
    requires d >= k
    ensures e >= k ==> e * d >= k * k
  {
    if e >= k {
      ProductNat(e - k, d);
      ProductNat(k, d - k);
      assert (e - k) * d == e * d - k * d && k * (d - k) == k * d - k * k;
    }
  }

  // ------------------------------------------------------------------ elements of prime order

  /** Modulo a prime d, an element other than 1 whose power to the prime q is 1 makes q divide d - 1. */
  lemma OrderDivides(d: nat, b: int, q: nat)
    requires IsPrime(d) && IsPrime(q) && Cong(Pow(b, q), 1, d) && !Cong(b, 1, d)
    ensures (d - 1) % q == 0
  {
    NotZero(d, b, q);
    LittleTheorem(b, d);
    if (d - 1) % q != 0 {
      var x, y := Multiple(d - 1, q);
      ToThe(b, d - 1, x, d);
      ToThe(b, q, y, d);
      PowAdd(b, 1, q * y);
      CongMul(b, b, Pow(b, q * y), 1, d);
    }
  }

  lemma NotZero(d: nat, b: int, q: nat)
    requires d > 1 && q > 0 && Cong(Pow(b, q), 1, d)
    ensures b % d != 0
  {
    if b % d == 0 {
      RemainderUnique(0, 0, 0, d);
      RemainderUnique(1, 0, 1, d);
      CongMul(b, 0, Pow(b, q - 1), Pow(b, q - 1), d);
    }
  }

  /** A multiple of m is 1 more than one of q. */
  lemma Multiple(m: nat, q: nat) returns (x: nat, y: nat)
    requires IsPrime(q) && m % q != 0
    ensures m * x == 1 + q * y
  {
    var z := Inverse(m % q, q);
    x := z % q;
    CongResidue(z, q);
    CongResidue(m, q);
    CongMul(m % q, m, z, z, q);
    CongMul(m, m, x, z, q);
    var k := CongQuotient(m * x, 1, q);
    NotNegative(m, x, k, q);
    y := k;
  }

  lemma NotNegative(m: nat, x: nat, k: int, q: nat)
    requires q > 1 && m * x == 1 + k * q
    ensures k >= 0
  {
    assert m * x >= 0;
    assert k < 0 ==> k * q < 0;
  }

  /** A power that is 1 stays 1. */
  lemma ToThe(b: int, e: nat, x: nat, d: nat)
    requires d > 0 && Cong(Pow(b, e), 1, d)
    ensures 0 <= e * x && Cong(Pow(b, e * x), 1, d)
  {
    CongPow(Pow(b, e), 1, x, d);
    PowPow(b, e, x);
    PowOfOne(x);
  }

  // ---------------------------------------------------------------------------- the criterion

  /** An element of order q modulo n and modulo every divisor of n but 1. */
  ghost predicate HasOrder(n: nat, q: nat, b: int, c: int) {
    IsPrime(q) && n > 1 && Cong(Pow(b, q), 1, n) && Cong((b - 1) * c, 1, n)
  }

  lemma PrimeDivisor(n: nat, q: nat, b: int, c: int, d: nat)
    requires HasOrder(n, q, b, c) && IsPrime(d) && Divides(d, n)
    ensures (d - 1) % q == 0
  {
    CongDown(Pow(b, q), 1, d, n);
    CongDown((b - 1) * c, 1, d, n);
    if Cong(b, 1, d) {
      CongSub(b, 1, 1, 1, d);
      CongMul(b - 1, 0, c, c, d);
      RemainderUnique(0, 0, 0, d);
      RemainderUnique(1, 0, 1, d);
    }
    OrderDivides(d, b, q);
  }

  /** Every divisor is 1 more than a multiple of q. */
  lemma {:induction false} Divisor(n: nat, q: nat, b: int, c: int, d: nat) returns (i: nat)
    requires HasOrder(n, q, b, c) && d > 0 && Divides(d, n)
    ensures d == 1 + i * q
    decreases d
  {
    if d == 1 {
      return 0;
    }
    var p := LeastDivisor(d, 2);
    Transitive(p, d, n);
    PrimeDivisor(n, q, b, c, p);
    var e := d / p;
    assert d == e * p;
    Positive(e, p);
    Commute(e, p);
    DividesFrom(e, p, d);
    Transitive(e, d, n);
    var k := Divisor(n, q, b, c, e);
    var j := (p - 1) / q;
    assert p - 1 == j * q;
    Factors(j, k, q);
    i := j + k + j * k * q;
  }

  lemma Commute(a: int, b: int)
    ensures a * b == b * a
  {
  }

  lemma Factors(j: nat, k: nat, q: nat)
    ensures 0 <= j + k + j * k * q
    ensures (1 + k * q) * (1 + j * q) == 1 + (j + k + j * k * q) * q
  {
    assert 0 <= j * k;
    Associate(j * k, q, q);
    assert (k * q) * (j * q) == j * k * q * q by {
      MulSwap(k, q, j, q);
      Commute(k, j);
    }
  }

  /** A number whose divisors are all 1 more than a multiple of q has none but 1 and itself, unless
      the quotient (n - 1) / q splits as the two factors would have it. */
  lemma Pocklington(n: nat, q: nat, b: int, c: int, m: nat)
    requires HasOrder(n, q, b, c) && n == 1 + m * q && m / q + 1 < m % q
    ensures IsPrime(n)
  {
    forall d | 1 < d < n ensures n % d != 0 {
      if n % d == 0 {
        var e := n / d;
        assert n == e * d;
        Positive(e, d);
        Commute(e, d);
        DividesFrom(e, d, n);
        var i := Divisor(n, q, b, c, d);
        var j := Divisor(n, q, b, c, e);
        assert j == 0 ==> e == 1;
        Factors(i, j, q);
        Splits(i, j, q, m);
      }
    }
  }

  lemma Splits(i: nat, j: nat, q: nat, m: nat)
    requires q > 1 && i > 0 && j > 0 && (i + j + i * j * q) * q == m * q
    ensures m / q + 1 >= m % q
  {
    CancelRight(i + j + i * j * q, m, q);
    ProductNat(i - 1, j - 1);
    assert (i - 1) * (j - 1) == i * j - i - j + 1;
    var k, r := (i + j) / q, (i + j) % q;
    assert i + j == k * q + r;
    QuotientBounds(i + j, q);
    assert m == (i * j + k) * q + r by { assert (i * j + k) * q == i * j * q + k * q; }
    QuotientIs(m, i * j + k, r, q);
    ProductNat(k, q);
  }

  lemma CancelRight(a: int, b: int, q: int)
    requires q > 0 && a * q == b * q
    ensures a == b
  {
    assert (a - b) * q == 0;
  }

  lemma QuotientIs(m: int, k: int, r: int, q: int)
    requires 0 <= r < q && m == k * q + r
    ensures m / q == k && m % q == r
  {
    RemainderUnique(m, k, r, q);
    assert m == m / q * q + m % q;
    CancelRight(m / q, k, q);
  }

  // ------------------------------------------------------------------ powers by eight squarings

  /** One squaring, and a multiplication by b for a bit that is set. */
  ghost predicate Turn(n: nat, b: nat, bit: bool, r: nat, r': nat)
    requires n > 0
  {
    r' == (if bit then r * r * b else r * r) % n
  }

  /** The residue of a power of b. */
  ghost predicate Residue(n: nat, b: nat, e: nat, r: nat)
    requires n > 0
  {
    Cong(Pow(b, e), r, n)
  }

  lemma TurnIs(n: nat, b: nat, e: nat, bit: bool, r: nat, r': nat)
    requires n > 0 && Residue(n, b, e, r) && Turn(n, b, bit, r, r')
    ensures Residue(n, b, 2 * e + if bit then 1 else 0, r')
  {
    PowAdd(b, e, e);
    CongMul(Pow(b, e), r, Pow(b, e), r, n);
    CongResidue(r * r, n);
    if bit {
      PowAdd(b, 2 * e, 1);
      CongMul(Pow(b, 2 * e), r * r, b, b, n);
      CongResidue(r * r * b, n);
    }
  }

  /** Two bits of an exponent, the higher first. */
  lemma Two(n: nat, b: nat, e: nat, x: bool, y: bool, r0: nat, r1: nat, r2: nat)
    requires n > 0 && Residue(n, b, e, r0) && Turn(n, b, x, r0, r1) && Turn(n, b, y, r1, r2)
    ensures Residue(n, b, 4 * e + (if x then 2 else 0) + if y then 1 else 0, r2)
  {
    TurnIs(n, b, e, x, r0, r1);
    TurnIs(n, b, 2 * e + if x then 1 else 0, y, r1, r2);
  }

  type Powers = (nat, nat) -> bool

  /** `at` says which exponents of b have which residues.  The computations only hand this fact on, so
      they are proved for a name that stands for it. */
  ghost predicate Names(at: Powers, n: nat, b: nat)
    requires n > 0
  {
    forall e: nat, r: nat {:trigger Residue(n, b, e, r)} :: at(e, r) == Residue(n, b, e, r)
  }

  function Digit(w: bool, x: bool, y: bool, z: bool): (k: nat)
    ensures k < 16
  {
    (if w then 8 else 0) + (if x then 4 else 0) + (if y then 2 else 0) + if z then 1 else 0
  }

  /** Four bits of an exponent, the highest first. */
  lemma Four(at: Powers, n: nat, b: nat, e: nat, w: bool, x: bool, y: bool, z: bool,
             r0: nat, r1: nat, r2: nat, r3: nat, r4: nat) returns (e': nat)
    requires n > 0 && Names(at, n, b) && at(e, r0)
    requires r1 == (if w then r0 * r0 * b else r0 * r0) % n
    requires r2 == (if x then r1 * r1 * b else r1 * r1) % n
    requires r3 == (if y then r2 * r2 * b else r2 * r2) % n
    requires r4 == (if z then r3 * r3 * b else r3 * r3) % n
    ensures e' == 16 * e + Digit(w, x, y, z) && at(e', r4)
  {
    assert Turn(n, b, w, r0, r1) && Turn(n, b, x, r1, r2) && Turn(n, b, y, r2, r3) && Turn(n, b, z, r3, r4);
    FourIs(at, n, b, e, w, x, y, z, r0, r1, r2, r3, r4);
    e' := 16 * e + Digit(w, x, y, z);
  }

  lemma FourIs(at: Powers, n: nat, b: nat, e: nat, w: bool, x: bool, y: bool, z: bool,
               r0: nat, r1: nat, r2: nat, r3: nat, r4: nat)
    requires n > 0 && Names(at, n, b) && at(e, r0)
    requires Turn(n, b, w, r0, r1) && Turn(n, b, x, r1, r2) && Turn(n, b, y, r2, r3) && Turn(n, b, z, r3, r4)
    ensures at(16 * e + Digit(w, x, y, z), r4)
  {
    assert Residue(n, b, e, r0);
    Two(n, b, e, w, x, r0, r1, r2);
    Two(n, b, 4 * e + (if w then 2 else 0) + if x then 1 else 0, y, z, r2, r3, r4);
    assert Residue(n, b, 16 * e + Digit(w, x, y, z), r4);
  }

  lemma NameFor(n: nat, b: nat) returns (at: Powers)
    requires n > 0
    ensures Names(at, n, b)
  {
    at := (e: nat, r: nat) => Residue(n, b, e, r);
  }

  lemma AtZero(at: Powers, n: nat, b: nat)
    requires n > 0 && Names(at, n, b)
    ensures at(0, 1)
  {
    assert Residue(n, b, 0, 1);
  }

  /** A computation of the power of b to q that ends in 1 makes n prime. */
  lemma PrimeBy(at: Powers, n: nat, q: nat, b: nat, c: nat, m: nat)
    requires n > 1 && Names(at, n, b) && at(q, 1)
    requires IsPrime(q) && n == 1 + m * q && m / q + 1 < m % q && (b - 1) * c % n == 1
    ensures IsPrime(n)
  {
    assert Residue(n, b, q, 1);
    RemainderUnique(1, 0, 1, n);
    Pocklington(n, q, b, c, m);
  }
}

/** Bits and bytes of natural numbers: powers of two, shifts, `&`, `|`, and the
    little-endian reading of byte strings. */
module Bits {
  import opened Modular

  newtype u8 = x: int | 0 <= x < 0x100

  function Pow2(n: nat): (r: int)
    ensures r > 0
  {
    if n == 0 then 1 else 2 * Pow2(n - 1)
  }

  lemma {:induction false} Pow2Add(m: nat, n: nat)
    ensures Pow2(m + n) == Pow2(m) * Pow2(n)
    decreases m
  {
    if m > 0 {
      Pow2Add(m - 1, n);
      assert 2 * (Pow2(m - 1) * Pow2(n)) == 2 * Pow2(m - 1) * Pow2(n);
    }
  }

  // ------------------------------------------------------------------------ division

  lemma QuotientIsNat(k: nat, m: int)
    requires m > 0
    ensures k / m >= 0
  {
  }

  lemma QuotientUnique(a: int, q: int, r: int, m: int)
    requires 0 <= r < m
    requires a == q * m + r
    ensures a / m == q && a % m == r
  {
    RemainderUnique(a, q, r, m);
    assert a == (a / m) * m + a % m;
    CancelFactor(a / m, q, m);
  }

  lemma CancelFactor(a: int, b: int, m: int)
    requires m > 0 && a * m == b * m
    ensures a == b
  {
    assert (a - b) * m == 0;
  }

  /** Dividing by m and then by n divides by m * n, and the remainders combine. */
  lemma DivDiv(a: int, m: int, n: int)
    requires m > 0 && n > 0
    ensures m * n > 0
    ensures a / m / n == a / (m * n)
    ensures a % (m * n) == (a / m % n) * m + a % m
  {
    var q, r := a / m, a % m;
    var h, b := q / n, q % n;
    assert a == q * m + r && q == h * n + b;
    DivDivValue(a, m, n, q, r, h, b);
    RemainderFits(b, r, m, n);
    QuotientUnique(a, h, b * m + r, m * n);
  }

  lemma DivDivValue(a: int, m: int, n: int, q: int, r: int, h: int, b: int)
    requires a == q * m + r && q == h * n + b
    ensures a == h * (m * n) + (b * m + r)
  {
    assert (h * n + b) * m == (h * n) * m + b * m;
    assert (h * n) * m == h * (m * n);
  }

  lemma RemainderFits(b: int, r: int, m: int, n: int)
    requires 0 <= b < n && 0 <= r < m
    ensures 0 < m * n && 0 <= b * m + r < m * n
  {
    assert (b + 1) * m <= n * m;
    assert b * m >= 0;
  }

  /** k >> t. */
  function Shift(k: nat, t: nat): nat {
    QuotientIsNat(k, Pow2(t));
    k / Pow2(t)
  }

  // ---------------------------------------------------------------- bitwise operators

  /** x & y. */
  function And(x: nat, y: nat): nat
    decreases y, x
  {
    if y == 0 then 0 else 2 * And(x / 2, y / 2) + (if x % 2 == 1 && y % 2 == 1 then 1 else 0)
  }

  /** x | y. */
  function Or(x: nat, y: nat): nat
    decreases x + y, y
  {
    if x + y == 0 then 0 else 2 * Or(x / 2, y / 2) + (if x % 2 == 1 || y % 2 == 1 then 1 else 0)
  }

  /** Masking with n ones keeps the low n bits. */
  lemma {:induction false} AndMask(x: nat, n: nat)
    ensures And(x, Pow2(n) - 1) == x % Pow2(n)
  {
    if n > 0 {
      AndMask(x / 2, n - 1);
      DivDiv(x, 2, Pow2(n - 1));
      assert (Pow2(n) - 1) / 2 == Pow2(n - 1) - 1 && (Pow2(n) - 1) % 2 == 1;
    }
  }

  lemma AndDouble(x: nat, y: nat)
    ensures And(x, 2 * y) == 2 * And(x / 2, y)
  {
  }

  /** Masking with a single one tests that bit. */
  lemma {:induction false} AndSingle(x: nat, n: nat)
    ensures And(x, Pow2(n)) == (if x / Pow2(n) % 2 == 1 then Pow2(n) else 0)
  {
    if n > 0 {
      AndSingle(x / 2, n - 1);
      DivDiv(x, 2, Pow2(n - 1));
      assert Pow2(n) / 2 == Pow2(n - 1) && Pow2(n) % 2 == 0;
    } else {
      assert And(x / 2, 0) == 0;
    }
  }

  /** Or-ing numbers that share no bit position adds them. */
  lemma {:induction false} OrDisjoint(x: nat, y: nat, n: nat)
    requires x < Pow2(n) && y % Pow2(n) == 0
    ensures Or(x, y) == x + y
  {
    if n == 0 {
      OrZero(y);
    } else if x + y > 0 {
      DivDiv(y, 2, Pow2(n - 1));
      OrDisjoint(x / 2, y / 2, n - 1);
    }
  }

  lemma {:induction false} OrZero(y: nat)
    ensures Or(0, y) == y
  {
    if y > 0 { OrZero(y / 2); }
  }

  lemma {:induction false} OrSymmetric(x: nat, y: nat)
    ensures Or(x, y) == Or(y, x)
    decreases x + y
  {
    if x + y > 0 { OrSymmetric(x / 2, y / 2); }
  }

  // ---------------------------------------------------------------------------- bytes

  /** The number that a byte string stands for, least significant byte first. */
  ghost function LittleEndian(s: seq<u8>): nat
    decreases |s|
  {
    if s == [] then 0 else s[0] as nat + 0x100 * LittleEndian(s[1..])
  }

  lemma {:induction false} LittleEndianBound(s: seq<u8>)
    ensures LittleEndian(s) < Pow2(8 * |s|)
  {
    if s != [] {
      LittleEndianBound(s[1..]);
      Pow2Byte(|s| - 1);
    }
  }

  lemma Pow2Byte(n: nat)
    ensures Pow2(8 * n + 8) == 0x100 * Pow2(8 * n)
    ensures Pow2(8 * (n + 1)) == 0x100 * Pow2(8 * n)
  {
    Pow2Add(8, 8 * n);
    assert Pow2(8) == 0x100;
  }

  lemma {:induction false} LittleEndianConcat(s: seq<u8>, t: seq<u8>)
    ensures LittleEndian(s + t) == LittleEndian(s) + Pow2(8 * |s|) * LittleEndian(t)
  {
    if s == [] {
      assert s + t == t;
    } else {
      assert (s + t)[1..] == s[1..] + t;
      LittleEndianConcat(s[1..], t);
      Pow2Byte(|s| - 1);
      ScaleSum(LittleEndian(s[1..]), Pow2(8 * (|s| - 1)), LittleEndian(t));
    }
  }

  lemma ScaleSum(a: int, w: int, b: int)
    ensures 0x100 * (a + w * b) == 0x100 * a + (0x100 * w) * b
  {
  }

  /** Byte strings of the same length and the same value are equal. */
  lemma {:induction false} LittleEndianInjective(s: seq<u8>, t: seq<u8>)
    requires |s| == |t| && LittleEndian(s) == LittleEndian(t)
    ensures s == t
  {
    if s != [] {
      assert s[0] as int - t[0] as int == 0x100 * (LittleEndian(t[1..]) - LittleEndian(s[1..]));
      LittleEndianInjective(s[1..], t[1..]);
      assert s == [s[0]] + s[1..] && t == [t[0]] + t[1..];
    }
  }
}

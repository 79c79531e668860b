/** Field elements in signed radix 2^25.5, as arrays of 64-bit signed limbs.

    `felem` is the 64-bit signed type of the program: Dafny proves of every sum, product
    and negation on it that the exact result stays in range, so a method that verifies
    never overflows, in any intermediate step. */
module Limbs {
  newtype felem = x: int | -0x8000_0000_0000_0000 <= x < 0x8000_0000_0000_0000

  /** The field prime 2^255 - 19. */
  const P: int := 0x7fffffff_ffffffff_ffffffff_ffffffff_ffffffff_ffffffff_ffffffff_ffffffed

  /** 2^25: the largest magnitude of a reduced limb. */
  const LIMB_MAX: int := 0x2000000
  /** 2^26: the largest magnitude that may enter a product. */
  const FACTOR_MAX: int := 0x4000000
  /** 14 * 2^52: the largest coefficient of a product of two such numbers. */
  const PRODUCT_MAX: int := 0xE0_0000_0000_0000
  /** 2^62: the largest limb that coefficient reduction accepts. */
  const LOOSE_MAX: int := 0x4000_0000_0000_0000

  // ---------------------------------------------------------------- positional value

  /** The ratio between the weights of limb i + 1 and limb i: limbs hold 26 and 25 bits in turn. */
  function Radix(i: nat): int {
    if i % 2 == 0 then 0x4000000 else 0x2000000
  }

  /** The weight of limb i, which is 2 to the power ceil(25.5 * i). */
  ghost function Weight(i: nat): (w: int)
    ensures w > 0
  {
    if i == 0 then 1 else Radix(i - 1) * Weight(i - 1)
  }

  /** The number that the first n limbs of s stand for. */
  ghost function Val(s: seq<felem>, n: nat): int
    requires n <= |s|
    decreases n, s
  {
    if n == 0 then 0 else Val(s, n - 1) + Weight(n - 1) * (s[n - 1] as int)
  }

  ghost function Short(a: array<felem>): int
    requires a.Length >= 10
    reads a
  {
    Val(a[..], 10)
  }

  ghost predicate WithinSeq(s: seq<felem>, n: nat, bound: int)
    requires n <= |s|
  {
    forall i :: 0 <= i < n ==> -bound <= s[i] as int <= bound
  }

  /** The first ten limbs are at most `bound` in magnitude. */
  ghost predicate Within(a: array<felem>, bound: int)
    requires a.Length >= 10
    reads a
  {
    forall i :: 0 <= i < 10 ==> -bound <= a[i] as int <= bound
  }

  /** Limb i of a reduced number: even limbs lie in [-2^25, 2^25], odd limbs strictly inside. */
  ghost predicate ReducedLimb(x: felem, i: nat) {
    if i % 2 == 0 then -LIMB_MAX <= x as int <= LIMB_MAX else -LIMB_MAX < x as int < LIMB_MAX
  }

  ghost predicate Reduced(a: array<felem>)
    requires a.Length >= 10
    reads a
  {
    forall i :: 0 <= i < 10 ==> ReducedLimb(a[i], i)
  }

  /** Two odd positions hold 51 bits between them but their weights' product has one more. */
  ghost function OddPair(i: nat, j: nat): int {
    if i % 2 == 1 && j % 2 == 1 then 2 else 1
  }

  lemma {:induction false} WeightProduct(i: nat, j: nat)
    ensures Weight(i) * Weight(j) == OddPair(i, j) * Weight(i + j)
    decreases j
  {
    if j > 0 {
      WeightProduct(i, j - 1);
      RadixShift(i, j - 1);
      MulSwap4(Weight(i), Radix(j - 1), Weight(j - 1),
               OddPair(i, j - 1), Weight(i + j - 1), OddPair(i, j), Radix(i + j - 1));
    }
  }

  lemma RadixShift(i: nat, j: nat)
    ensures OddPair(i, j) * Radix(j) == OddPair(i, j + 1) * Radix(i + j)
  {
  }

  lemma MulSwap4(a: int, r: int, b: int, f: int, w: int, g: int, q: int)
    requires a * b == f * w
    requires f * r == g * q
    ensures a * (r * b) == g * (q * w)
  {
    calc {
      a * (r * b);
      r * (a * b);
      r * (f * w);
      (f * r) * w;
      (g * q) * w;
      g * (q * w);
    }
  }

  lemma WeightTen()
    ensures Weight(10) == P + 19
  {
  }

  // ------------------------------------------------------------------ value and update

  lemma {:induction false} ValAgree(s: seq<felem>, t: seq<felem>, n: nat)
    requires n <= |s| && n <= |t|
    requires forall i :: 0 <= i < n ==> s[i] == t[i]
    ensures Val(s, n) == Val(t, n)
  {
    if n > 0 { ValAgree(s, t, n - 1); }
  }

  lemma {:induction false} ValUpdate(s: seq<felem>, i: nat, v: felem, n: nat)
    requires i < n <= |s|
    ensures Val(s[i := v], n) == Val(s, n) + Weight(i) * (v as int - s[i] as int)
  {
    if i == n - 1 {
      ValAgree(s, s[i := v], n - 1);
      assert Weight(i) * (v as int - s[i] as int) == Weight(i) * (v as int) - Weight(i) * (s[i] as int);
    } else {
      ValUpdate(s, i, v, n - 1);
    }
  }

  /** Moving a carry from limb i to limb i + 1 keeps the value. */
  lemma ValCarry(s: seq<felem>, i: nat, x: felem, y: felem, carry: int, n: nat)
    requires i + 1 < n <= |s|
    requires x as int == s[i] as int - Radix(i) * carry
    requires y as int == s[i + 1] as int + carry
    ensures Val(s[i := x][i + 1 := y], n) == Val(s, n)
  {
    ValUpdate(s, i, x, n);
    ValUpdate(s[i := x], i + 1, y, n);
    CarryCancels(Weight(i), Radix(i), carry);
    assert Weight(i + 1) == Radix(i) * Weight(i);
  }

  lemma CarryCancels(w: int, r: int, carry: int)
    ensures w * (-(r * carry)) + (r * w) * carry == 0
  {
    assert (r * w) * carry == w * (r * carry);
  }

  lemma {:induction false} ValSum(s: seq<felem>, t: seq<felem>, u: seq<felem>, n: nat)
    requires n <= |s| && n <= |t| && n <= |u|
    requires forall i :: 0 <= i < n ==> u[i] as int == s[i] as int + t[i] as int
    ensures Val(u, n) == Val(s, n) + Val(t, n)
  {
    if n > 0 {
      ValSum(s, t, u, n - 1);
      assert Weight(n - 1) * (s[n - 1] as int + t[n - 1] as int)
          == Weight(n - 1) * (s[n - 1] as int) + Weight(n - 1) * (t[n - 1] as int);
    }
  }

  lemma {:induction false} ValScale(s: seq<felem>, u: seq<felem>, k: int, n: nat)
    requires n <= |s| && n <= |u|
    requires forall i :: 0 <= i < n ==> u[i] as int == k * (s[i] as int)
    ensures Val(u, n) == k * Val(s, n)
  {
    if n > 0 {
      ValScale(s, u, k, n - 1);
      Factor(k, Val(s, n - 1), Weight(n - 1), s[n - 1] as int);
    }
  }

  lemma Factor(k: int, v: int, w: int, x: int)
    ensures k * (v + w * x) == k * v + (k * w) * x
    ensures k * (v + w * x) == k * v + w * (k * x)
  {
    assert k * (v + w * x) == k * v + k * (w * x);
  }

  /** The number held by the n limbs from limb 10 on, read as a number of its own. */
  ghost function High(s: seq<felem>, n: nat): int
    requires 10 + n <= |s|
    decreases n, s
  {
    if n == 0 then 0 else High(s, n - 1) + Weight(n - 1) * (s[10 + n - 1] as int)
  }

  /** The limbs from 10 on count 2^255 times as much as the ones below. */
  lemma {:induction false} ValSplit(s: seq<felem>, n: nat)
    requires 10 + n <= |s|
    ensures Val(s, 10 + n) == Val(s, 10) + (P + 19) * High(s, n)
  {
    if n > 0 {
      ValSplit(s, n - 1);
      WeightShift(n - 1);
      Factor(P + 19, High(s, n - 1), Weight(n - 1), s[10 + n - 1] as int);
    }
  }

  lemma WeightShift(n: nat)
    ensures Weight(10 + n) == (P + 19) * Weight(n)
  {
    WeightTen();
    WeightProduct(10, n);
  }

  lemma ReducedIsWithin(a: array<felem>)
    requires a.Length >= 10 && Reduced(a)
    ensures Within(a, LIMB_MAX)
  {
    forall i | 0 <= i < 10 ensures -LIMB_MAX <= a[i] as int <= LIMB_MAX {
      assert ReducedLimb(a[i], i);
    }
  }

  /** Stores limbs that have all been computed before. */
  method Store(output: array<felem>, t: seq<felem>)
    requires output.Length == |t|
    modifies output
    ensures output[..] == t
  {
    for k := 0 to |t|
      invariant output[..k] == t[..k]
    {
      output[k] := t[k];
    }
  }
}

/** Inversion by an addition chain for the exponent p - 2: `crecip`. */
module Inversion {
  import opened Modular
  import opened Bits
  import opened Limbs
  import opened FieldOps
  import opened Packing

  /** a holds the power z^e modulo p, in limbs that may enter a product. */
  ghost predicate IsPower(a: array<felem>, z: int, e: nat)
    reads a
  {
    a.Length == 10 && Within(a, FACTOR_MAX) && Cong(Short(a), Pow(z, e), P)
  }

  /** 2^n - 1, whose binary form is n ones.  The base z is carried along only to keep the
      verifier from unfolding literal lengths. */
  ghost function Ones(n: nat, z: int): nat
    decreases n, z
  {
    if n == 0 then 0 else 2 * Ones(n - 1, z) + 1
  }

  lemma {:induction false} OnesValue(n: nat, z: int)
    ensures Ones(n, z) == Pow2(n) - 1
  {
    if n > 0 { OnesValue(n - 1, z); }
  }

  lemma OnesAppend(m: nat, n: nat, z: int)
    ensures Ones(m, z) * Pow2(n) + Ones(n, z) == Ones(m + n, z)
  {
    OnesValue(m, z);
    OnesValue(n, z);
    OnesValue(m + n, z);
    Pow2Add(m, n);
    assert (Pow2(m) - 1) * Pow2(n) == Pow2(m) * Pow2(n) - Pow2(n);
  }

  lemma ChainEnd(z: int)
    ensures 32 * Ones(250, z) + 11 == P - 2
  {
    OnesValue(250, z);
    Pow2Add(5, 250);
    Pow2Of255();
    assert Pow2(5) == 32;
  }

  lemma Pow2Of255()
    ensures Pow2(255) == P + 19
  {
    WeightTen();
    WeightIsPow2(10);
  }

  method SquarePower(output: array<felem>, input: array<felem>, ghost z: int, ghost e: nat)
    requires IsPower(input, z, e) && output.Length == 10
    modifies output
    ensures IsPower(output, z, 2 * e)
  {
    ghost var x := Short(input);
    Fsquare(output, input);
    ReducedIsWithin(output);
    CongMul(x, Pow(z, e), x, Pow(z, e), P);
    PowAdd(z, e, e);
  }

  method MultiplyPowers(output: array<felem>, a: array<felem>, b: array<felem>, ghost z: int, ghost d: nat, ghost e: nat)
    requires IsPower(a, z, d) && IsPower(b, z, e) && output.Length == 10
    modifies output
    ensures Reduced(output)
    ensures IsPower(output, z, d + e)
  {
    ghost var x, y := Short(a), Short(b);
    Fmul(output, a, b);
    ReducedIsWithin(output);
    CongMul(x, Pow(z, d), y, Pow(z, e), P);
    PowAdd(z, d, e);
  }

  /** A run of n squarings, n even, that alternate between the two buffers. */
  method SquareRun(first: array<felem>, second: array<felem>, x: array<felem>, n: nat, ghost z: int, ghost e: nat)
    requires IsPower(x, z, e) && first.Length == 10 && second.Length == 10
    requires first != second && n >= 2 && n % 2 == 0
    modifies first, second
    ensures 0 <= e * Pow2(n) && IsPower(second, z, e * Pow2(n))
  {
    SquarePower(first, x, z, e);
    SquarePower(second, first, z, 2 * e);
    var i := 2;
    ghost var f: nat := 4 * e;
    while i < n
      invariant 2 <= i <= n && i % 2 == 0
      invariant IsPower(second, z, f)
      invariant f == e * Pow2(i)
    {
      SquarePower(first, second, z, f);
      SquarePower(second, first, z, 2 * f);
      FourTimes(e, i);
      f := 4 * f;
      i := i + 2;
    }
  }

  lemma FourTimes(e: nat, i: nat)
    ensures e * Pow2(i + 2) == 4 * (e * Pow2(i))
  {
    assert Pow2(i + 2) == 2 * Pow2(i + 1);
    assert e * (4 * Pow2(i)) == 4 * (e * Pow2(i));
  }

  /** Five squarings from x, which end in the first buffer. */
  method SquareFive(first: array<felem>, second: array<felem>, x: array<felem>, ghost z: int, ghost e: nat)
    requires IsPower(x, z, e) && first.Length == 10 && second.Length == 10
    requires first != second
    modifies first, second
    ensures IsPower(first, z, 32 * e)
  {
    SquarePower(first, x, z, e);
    SquarePower(second, first, z, 2 * e);
    SquarePower(first, second, z, 4 * e);
    SquarePower(second, first, z, 8 * e);
    SquarePower(first, second, z, 16 * e);
  }

  /** From z^(2^m - 1) in x and z^(2^n - 1) in y to z^(2^(m + n) - 1). */
  method AppendOnes(output: array<felem>, first: array<felem>, second: array<felem>,
      x: array<felem>, y: array<felem>, ghost m: nat, n: nat, ghost z: int)
    requires IsPower(x, z, Ones(m, z)) && IsPower(y, z, Ones(n, z))
    requires output.Length == 10 && first.Length == 10 && second.Length == 10
    requires first != second && first != y && second != y && n >= 2 && n % 2 == 0
    modifies output, first, second
    ensures IsPower(output, z, Ones(m + n, z))
  {
    SquareRun(first, second, x, n, z, Ones(m, z));
    MultiplyPowers(output, second, y, z, Ones(m, z) * Pow2(n), Ones(n, z));
    OnesAppend(m, n, z);
  }

  /** z^2 and z^9. */
  method SecondAndNinth(z2: array<felem>, z9: array<felem>, z: array<felem>, ghost v: int)
    requires z2.Length == 10 && z9.Length == 10 && z2 != z9 && z !in {z2, z9}
    requires IsPower(z, v, 1)
    modifies z2, z9
    ensures IsPower(z2, v, 2) && IsPower(z9, v, 9)
  {
    var t0, t1 := new felem[10], new felem[10];
    SquarePower(z2, z, v, 1);
    SquarePower(t1, z2, v, 2);
    SquarePower(t0, t1, v, 4);
    MultiplyPowers(z9, t0, z, v, 8, 1);
  }

  /** z^11 and z^31. */
  method FirstPowers(z11: array<felem>, z2_5_0: array<felem>, z: array<felem>, ghost v: int)
    requires z11.Length == 10 && z2_5_0.Length == 10 && z11 != z2_5_0 && z !in {z11, z2_5_0}
    requires IsPower(z, v, 1)
    modifies z11, z2_5_0
    ensures IsPower(z11, v, 11) && IsPower(z2_5_0, v, 31)
  {
    var z2, z9, t0 := new felem[10], new felem[10], new felem[10];
    SecondAndNinth(z2, z9, z, v);
    MultiplyPowers(z11, z9, z2, v, 9, 2);
    SquarePower(t0, z11, v, 11);
    MultiplyPowers(z2_5_0, t0, z9, v, 22, 9);
  }

  /** From z^31 to z^(2^10 - 1). */
  method TenOnes(z2_10_0: array<felem>, z2_5_0: array<felem>, t0: array<felem>, t1: array<felem>, ghost v: int)
    requires z2_10_0.Length == 10 && t0.Length == 10 && t1.Length == 10
    requires t0 != t1 && z2_10_0 !in {t0, t1, z2_5_0} && z2_5_0 !in {t0, t1}
    requires IsPower(z2_5_0, v, Ones(5, v))
    modifies z2_10_0, t0, t1
    ensures IsPower(z2_10_0, v, Ones(10, v))
  {
    SquareFive(t0, t1, z2_5_0, v, Ones(5, v));
    MultiplyPowers(z2_10_0, t0, z2_5_0, v, 32 * Ones(5, v), Ones(5, v));
    OnesAppend(5, 5, v);
  }

  /** From z^31 to z^(2^50 - 1). */
  method FiftyOnes(z2_50_0: array<felem>, z2_5_0: array<felem>, t0: array<felem>, t1: array<felem>, ghost v: int)
    requires z2_50_0.Length == 10 && t0.Length == 10 && t1.Length == 10
    requires t0 != t1 && z2_50_0 !in {t0, t1, z2_5_0} && z2_5_0 !in {t0, t1}
    requires IsPower(z2_5_0, v, Ones(5, v))
    modifies z2_50_0, t0, t1
    ensures IsPower(z2_50_0, v, Ones(50, v))
  {
    var z2_10_0, z2_20_0 := new felem[10], new felem[10];
    TenOnes(z2_10_0, z2_5_0, t0, t1, v);
    AppendOnes(z2_20_0, t0, t1, z2_10_0, z2_10_0, 10, 10, v);
    AppendOnes(t0, t0, t1, z2_20_0, z2_20_0, 20, 20, v);
    AppendOnes(z2_50_0, t1, t0, t0, z2_10_0, 40, 10, v);
  }

  /** From z^(2^50 - 1) to z^(2^250 - 1), which ends in t0. */
  method ManyOnes(z2_50_0: array<felem>, t0: array<felem>, t1: array<felem>, ghost v: int)
    requires t0.Length == 10 && t1.Length == 10 && t0 != t1 && z2_50_0 !in {t0, t1}
    requires IsPower(z2_50_0, v, Ones(50, v))
    modifies t0, t1
    ensures IsPower(t0, v, Ones(250, v))
  {
    var z2_100_0 := new felem[10];
    AppendOnes(z2_100_0, t0, t1, z2_50_0, z2_50_0, 50, 50, v);
    AppendOnes(t1, t1, t0, z2_100_0, z2_100_0, 100, 100, v);
    AppendOnes(t0, t0, t1, t1, z2_50_0, 200, 50, v);
  }

  /** out := z^(p - 2). */
  method Crecip(output: array<felem>, z: array<felem>)
    requires output.Length == 10 && z.Length == 10
    requires Within(z, FACTOR_MAX)
    modifies output
    ensures Reduced(output)
    ensures Cong(Short(output), Pow(old(Short(z)), P - 2), P)
  {
    ghost var v := Short(z);
    var z11, z2_5_0, z2_50_0 := new felem[10], new felem[10], new felem[10];
    var t0, t1 := new felem[10], new felem[10];
    assert Pow(v, 1) == v * Pow(v, 0);
    FirstPowers(z11, z2_5_0, z, v);
    assert Ones(5, v) == 31 by { OnesValue(5, v); }
    FiftyOnes(z2_50_0, z2_5_0, t0, t1, v);
    ManyOnes(z2_50_0, t0, t1, v);
    SquareFive(t1, t0, t0, v, Ones(250, v));
    MultiplyPowers(output, t1, z11, v, 32 * Ones(250, v), 11);
    ChainEnd(v);
  }
}

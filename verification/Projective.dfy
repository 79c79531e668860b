/** Why one ladder iteration more, on a leading zero bit, does not change the result: it only
    rescales the working variables, and the quotient x2 / z2 does not see the scale. */
module Projective {
  import opened Modular
  import opened Bits
  import opened Limbs
  import opened Rfc7748
  import opened Fermat
  import FieldPrime

  /** y is x scaled by c, modulo m. */
  ghost predicate Scaled(x: int, y: int, c: int, m: int)
    requires m > 0
  {
    Cong(y, c * x, m)
  }

  ghost predicate ScaledState(s: State, t: State, c: int, d: int, m: int)
    requires m > 0
  {
    Scaled(s.x2, t.x2, c, m) && Scaled(s.z2, t.z2, c, m) && Scaled(s.x3, t.x3, d, m) && Scaled(s.z3, t.z3, d, m)
  }

  lemma Distribute(c: int, x: int, z: int)
    ensures c * x + c * z == c * (x + z) && c * x - c * z == c * (x - z)
  {
  }

  lemma ScaledAdd(x: int, x': int, z: int, z': int, c: int, m: int)
    requires m > 0 && Scaled(x, x', c, m) && Scaled(z, z', c, m)
    ensures Scaled(AddMod(x, z, m), AddMod(x', z', m), c, m)
  {
    CongAdd(x', c * x, z', c * z, m);
    Distribute(c, x, z);
    ScaledResidue(x + z, x' + z', c, m);
  }

  lemma ScaledSub(x: int, x': int, z: int, z': int, c: int, m: int)
    requires m > 0 && Scaled(x, x', c, m) && Scaled(z, z', c, m)
    ensures Scaled(SubMod(x, z, m), SubMod(x', z', m), c, m)
  {
    CongSub(x', c * x, z', c * z, m);
    Distribute(c, x, z);
    ScaledResidue(x - z, x' - z', c, m);
  }

  lemma ScaledMul(x: int, x': int, c: int, y: int, y': int, d: int, m: int)
    requires m > 0 && Scaled(x, x', c, m) && Scaled(y, y', d, m)
    ensures Scaled(MulMod(x, y, m), MulMod(x', y', m), c * d, m)
  {
    CongMul(x', c * x, y', d * y, m);
    MulSwap(c, x, d, y);
    ScaledResidue(x * y, x' * y', c * d, m);
  }

  lemma ScaledResidue(x: int, y: int, c: int, m: int)
    requires m > 0 && Cong(y, c * x, m)
    ensures Scaled(x % m, y % m, c, m)
  {
    CongResidue(y, m);
    CongResidue(x, m);
    CongMul(c, c, x % m, x, m);
  }

  lemma ScaledSelf(x: int, m: int)
    requires m > 0
    ensures Scaled(x, x, 1, m)
  {
  }

  /** A ladder step takes scales c and d to c^4 and (cd)^2. */
  lemma StepScales(u: int, s: State, t: State, c: int, d: int, m: int)
    requires m > 0 && ScaledState(s, t, c, d, m)
    ensures ScaledState(StepMod(u, s, m), StepMod(u, t, m), (c * c) * (c * c), (c * d) * (c * d), m)
  {
    DoubleScales(u, s, t, c, d, m);
    AddScales(u, s, t, c, d, m);
  }

  lemma DoubleScales(u: int, s: State, t: State, c: int, d: int, m: int)
    requires m > 0 && ScaledState(s, t, c, d, m)
    ensures Scaled(StepMod(u, s, m).x2, StepMod(u, t, m).x2, (c * c) * (c * c), m)
    ensures Scaled(StepMod(u, s, m).z2, StepMod(u, t, m).z2, (c * c) * (c * c), m)
  {
    var a, a' := AddMod(s.x2, s.z2, m), AddMod(t.x2, t.z2, m);
    var b, b' := SubMod(s.x2, s.z2, m), SubMod(t.x2, t.z2, m);
    ScaledAdd(s.x2, t.x2, s.z2, t.z2, c, m);
    ScaledSub(s.x2, t.x2, s.z2, t.z2, c, m);
    var aa, aa', bb, bb' := MulMod(a, a, m), MulMod(a', a', m), MulMod(b, b, m), MulMod(b', b', m);
    ScaledMul(a, a', c, a, a', c, m);
    ScaledMul(b, b', c, b, b', c, m);
    ScaledMul(aa, aa', c * c, bb, bb', c * c, m);
    var e, e' := SubMod(aa, bb, m), SubMod(aa', bb', m);
    ScaledSub(aa, aa', bb, bb', c * c, m);
    ScaledSelf(121665, m);
    ScaledMul(121665, 121665, 1, e, e', c * c, m);
    ScaledAdd(aa, aa', MulMod(121665, e, m), MulMod(121665, e', m), c * c, m);
    ScaledMul(e, e', c * c, AddMod(aa, MulMod(121665, e, m), m), AddMod(aa', MulMod(121665, e', m), m), c * c, m);
  }

  lemma AddScales(u: int, s: State, t: State, c: int, d: int, m: int)
    requires m > 0 && ScaledState(s, t, c, d, m)
    ensures Scaled(StepMod(u, s, m).x3, StepMod(u, t, m).x3, (c * d) * (c * d), m)
    ensures Scaled(StepMod(u, s, m).z3, StepMod(u, t, m).z3, (c * d) * (c * d), m)
  {
    var a, a' := AddMod(s.x2, s.z2, m), AddMod(t.x2, t.z2, m);
    var b, b' := SubMod(s.x2, s.z2, m), SubMod(t.x2, t.z2, m);
    ScaledAdd(s.x2, t.x2, s.z2, t.z2, c, m);
    ScaledSub(s.x2, t.x2, s.z2, t.z2, c, m);
    var p, p' := AddMod(s.x3, s.z3, m), AddMod(t.x3, t.z3, m);
    var q, q' := SubMod(s.x3, s.z3, m), SubMod(t.x3, t.z3, m);
    ScaledAdd(s.x3, t.x3, s.z3, t.z3, d, m);
    ScaledSub(s.x3, t.x3, s.z3, t.z3, d, m);
    CrossScales(q, q', a, a', p, p', b, b', c, d, m);
    var da, da', cb, cb' := MulMod(q, a, m), MulMod(q', a', m), MulMod(p, b, m), MulMod(p', b', m);
    ScaledAdd(da, da', cb, cb', c * d, m);
    ScaledSub(da, da', cb, cb', c * d, m);
    ScaledMul(AddMod(da, cb, m), AddMod(da', cb', m), c * d, AddMod(da, cb, m), AddMod(da', cb', m), c * d, m);
    ScaledMul(SubMod(da, cb, m), SubMod(da', cb', m), c * d, SubMod(da, cb, m), SubMod(da', cb', m), c * d, m);
    ScaledSelf(u, m);
    var sq, sq' := MulMod(SubMod(da, cb, m), SubMod(da, cb, m), m), MulMod(SubMod(da', cb', m), SubMod(da', cb', m), m);
    ScaledMul(u, u, 1, sq, sq', (c * d) * (c * d), m);
  }

  lemma CrossScales(q: int, q': int, a: int, a': int, p: int, p': int, b: int, b': int, c: int, d: int, m: int)
    requires m > 0 && Scaled(q, q', d, m) && Scaled(p, p', d, m) && Scaled(a, a', c, m) && Scaled(b, b', c, m)
    ensures Scaled(MulMod(q, a, m), MulMod(q', a', m), c * d, m)
    ensures Scaled(MulMod(p, b, m), MulMod(p', b', m), c * d, m)
  {
    ScaledMul(q, q', d, a, a', c, m);
    ScaledMul(p, p', d, b, b', c, m);
    assert d * c == c * d;
  }

  /** The same over the powers of one factor g, for a step that may swap. */
  lemma LadderStepScales(bit: bool, u: int, s: State, t: State, g: int, a: nat, b: nat, m: int)
    returns (a': nat, b': nat)
    requires m > 0 && ScaledState(s, t, Pow(g, a), Pow(g, b), m)
    ensures ScaledState(LadderStepMod(bit, u, s, m), LadderStepMod(bit, u, t, m), Pow(g, a'), Pow(g, b'), m)
  {
    var c, d := if bit then b else a, if bit then a else b;
    StepScales(u % m, Unswap(s, bit), Unswap(t, bit), Pow(g, c), Pow(g, d), m);
    PowAdd(g, c, c);
    PowAdd(g, 2 * c, 2 * c);
    PowAdd(g, c, d);
    PowAdd(g, c + d, c + d);
    a', b' := if bit then 2 * (c + d) else 4 * c, if bit then 4 * c else 2 * (c + d);
  }

  /** A ladder iteration on a leading zero bit turns (1 : 0), (u : 1) into (1 : 0), (4u^2 : 4u). */
  lemma FirstStep(u: int, m: int)
    requires m > 1
    ensures ScaledState(InitialMod(u, m), LadderStepMod(false, u, InitialMod(u, m), m), Pow(4 * u, 0), Pow(4 * u, 1), m)
  {
    var v := u % m;
    var t := StepMod(v, InitialMod(u, m), m);
    FirstDouble(v, m);
    var c, d := AddMod(v, 1, m), SubMod(v, 1, m);
    var da, cb := MulMod(d, 1, m), MulMod(c, 1, m);
    SumIsDouble(v, m);
    CongResidue(u, m);
    CongMul(4, 4, v, u, m);
    FourU(v, 4 * u, da, cb, m);
  }

  /** Doubling (1 : 0). */
  lemma FirstDouble(v: int, m: int)
    requires m > 1
    ensures AddMod(1, 0, m) == 1 && SubMod(1, 0, m) == 1
    ensures StepMod(v, State(1, 0, v, 1), m).x2 == 1 && StepMod(v, State(1, 0, v, 1), m).z2 == 0
  {
    RemainderUnique(0, 0, 0, m);
    RemainderUnique(1, 0, 1, m);
    assert MulMod(1, 1, m) == 1 && SubMod(1, 1, m) == 0;
    assert MulMod(121665, 0, m) == 0 && MulMod(0, AddMod(1, 0, m), m) == 0;
  }

  lemma SumIsDouble(v: int, m: int)
    requires m > 0
    ensures Cong(MulMod(SubMod(v, 1, m), 1, m), v - 1, m) && Cong(MulMod(AddMod(v, 1, m), 1, m), v + 1, m)
  {
    CongResidue(v - 1, m);
    CongResidue(v + 1, m);
    CongResidue((v - 1) % m, m);
    CongResidue((v + 1) % m, m);
  }

  /** (da + cb)^2 = 4v * v and v * (da - cb)^2 = 4v when da = v - 1 and cb = v + 1. */
  lemma FourU(v: int, g: int, da: int, cb: int, m: int)
    requires m > 0 && Cong(da, v - 1, m) && Cong(cb, v + 1, m) && Cong(g, 4 * v, m)
    ensures Scaled(v, MulMod(AddMod(da, cb, m), AddMod(da, cb, m), m), Pow(g, 1), m)
    ensures Scaled(1, MulMod(v, MulMod(SubMod(da, cb, m), SubMod(da, cb, m), m), m), Pow(g, 1), m)
  {
    assert Pow(g, 1) == g * Pow(g, 0) == g;
    CongAdd(da, v - 1, cb, v + 1, m);
    SquareCong(da + cb, 2 * v, m);
    assert (2 * v) * (2 * v) == 4 * v * v;
    CongMul(g, 4 * v, v, v, m);
    CongSub(da, v - 1, cb, v + 1, m);
    SquareCong(da - cb, -2, m);
    var sq := MulMod(SubMod(da, cb, m), SubMod(da, cb, m), m);
    CongMul(v, v, sq, 4, m);
    CongResidue(v * sq, m);
  }

  lemma SquareCong(x: int, y: int, m: int)
    requires m > 0 && Cong(x, y, m)
    ensures Cong(MulMod(x % m, x % m, m), y * y, m)
  {
    CongResidue(x, m);
    CongMul(x % m, y, x % m, y, m);
    CongResidue((x % m) * (x % m), m);
  }

  /** One bit more, and that bit zero, only rescales the state by powers of 4u. */
  lemma {:induction false} LeadingZeroScales(k: nat, u: int, n: nat, m: int) returns (a: nat, b: nat)
    requires k < Pow2(n) && m > 1
    ensures ScaledState(LadderMod(k, u, n, m), LadderMod(k, u, n + 1, m), Pow(4 * u, a), Pow(4 * u, b), m)
    decreases n
  {
    if n == 0 {
      FirstStep(u, m);
      a, b := 0, 1;
    } else {
      a, b := LeadingZeroScales(k / 2, u, n - 1, m);
      a, b := LadderStepScales(k % 2 == 1, u, LadderMod(k / 2, u, n - 1, m), LadderMod(k / 2, u, n, m), 4 * u, a, b, m);
    }
  }

  // ----------------------------------------------------------------- the scale cancels

  /** If p is prime, a power of 4u is one that Fermat's theorem applies to. */
  lemma PowerOfUnit(u: int, a: nat, p: nat)
    requires IsPrime(p) && p > 4 && u % p != 0
    ensures Cong(Pow(Pow(4 * u, a), p - 1), 1, p)
  {
    RemainderUnique(4, 0, 4, p);
    LittleTheorem(4, p);
    LittleTheorem(u, p);
    PowMulBase(4, u, p - 1);
    CongMul(Pow(4, p - 1), 1, Pow(u, p - 1), 1, p);
    PowerOfOne(4 * u, a, p);
  }

  lemma PowerOfOne(g: int, a: nat, p: nat)
    requires p > 1 && Cong(Pow(g, p - 1), 1, p)
    ensures Cong(Pow(Pow(g, a), p - 1), 1, p)
  {
    PowPow(g, a, p - 1);
    PowPow(g, p - 1, a);
    assert a * (p - 1) == (p - 1) * a;
    CongPow(Pow(g, p - 1), 1, a, p);
    PowOfOne(a);
  }

  /** Scaling numerator and denominator alike leaves x * z^e as it is. */
  lemma ScaleCancels(x: int, z: int, x': int, z': int, c: int, e: nat, m: int)
    requires m > 0 && Scaled(x, x', c, m) && Scaled(z, z', c, m) && Cong(Pow(c, e + 1), 1, m)
    ensures Cong(x' * Pow(z', e), x * Pow(z, e), m)
  {
    var y := Pow(z, e);
    CongPow(z', c * z, e, m);
    PowMulBase(c, z, e);
    CongMul(x', c * x, Pow(z', e), Pow(c, e) * y, m);
    MulSwap(c, x, Pow(c, e), y);
    assert Pow(c, e + 1) == c * Pow(c, e);
    CongMul(Pow(c, e + 1), 1, x * y, x * y, m);
  }

  /** On the point 0 the ladder falls to (0 : 0) at the first one bit and stays there. */
  lemma {:induction false} ZeroPoint(k: nat, u: int, n: nat, m: int)
    requires m > 1 && u % m == 0 && n > 0 && Pow2(n - 1) <= k < Pow2(n)
    ensures LadderMod(k, u, n, m).x2 == 0 && LadderMod(k, u, n, m).z2 == 0
    decreases n
  {
    if n == 1 {
      assert Pow2(0) == 1 && Pow2(1) == 2;
      assert k == 1 && LadderMod(0, u, 0, m) == InitialMod(u, m);
      OriginAndInfinity(m);
    } else {
      assert Pow2(n) == 2 * Pow2(n - 1) && Pow2(n - 1) == 2 * Pow2(n - 2);
      ZeroPoint(k / 2, u, n - 1, m);
      ZeroStays(k % 2 == 1, u, LadderMod(k / 2, u, n - 1, m), m);
    }
  }

  lemma OriginAndInfinity(m: int)
    requires m > 1
    ensures StepMod(0, State(0, 1, 1, 0), m).x3 == 0 && StepMod(0, State(0, 1, 1, 0), m).z3 == 0
  {
    RemainderUnique(0, 0, 0, m);
    RemainderUnique(1, 0, 1, m);
    RemainderUnique(-1, -1, m - 1, m);
    RemainderUnique(m - 1, 0, m - 1, m);
    RemainderUnique(m, 1, 0, m);
    assert AddMod(0, 1, m) == 1 && SubMod(0, 1, m) == m - 1;
    assert AddMod(1, 0, m) == 1 && SubMod(1, 0, m) == 1;
    assert MulMod(1, 1, m) == 1 && MulMod(1, m - 1, m) == m - 1;
    assert AddMod(1, m - 1, m) == 0;
  }

  lemma ZeroStays(bit: bool, u: int, s: State, m: int)
    requires m > 0 && s.x2 == 0 && s.z2 == 0
    ensures LadderStepMod(bit, u, s, m).x2 == 0 && LadderStepMod(bit, u, s, m).z2 == 0
  {
    RemainderUnique(0, 0, 0, m);
    assert AddMod(0, 0, m) == 0 && SubMod(0, 0, m) == 0 && MulMod(0, 0, m) == 0;
    ZeroProducts(u % m, s, m);
  }

  lemma ZeroProducts(v: int, s: State, m: int)
    requires m > 0 && s.x2 == 0 && s.z2 == 0 && 0 % m == 0
    ensures StepMod(v, s, m).x2 == 0 && StepMod(v, s, m).z2 == 0
    ensures StepMod(v, Swap(s), m).x3 == 0 && StepMod(v, Swap(s), m).z3 == 0
  {
  }

  /** For a scalar of exactly n bits, n + 1 iterations give what the reference's n give. */
  lemma LeadingZeroMod(k: nat, u: int, n: nat, m: nat)
    requires n > 0 && Pow2(n - 1) <= k < Pow2(n) && m > 4 && IsPrime(m)
    ensures AffineMod(LadderMod(k, u, n + 1, m), m) == AffineMod(LadderResult(k, u, n, m), m)
  {
    LadderResultIs(k, u, n, m);
    var s, t := LadderMod(k, u, n, m), LadderMod(k, u, n + 1, m);
    var a, b := LeadingZeroScales(k, u, n, m);
    if u % m == 0 {
      ZeroPoint(k, u, n, m);
      ZeroAffine(s.x2, t.x2, Pow(t.z2, m - 2), Pow(4 * u, a), m);
    } else {
      PowerOfUnit(u, a, m);
      ScaleCancels(s.x2, s.z2, t.x2, t.z2, Pow(4 * u, a), m - 2, m);
    }
  }

  /** The same over the field of the curve. */
  lemma LeadingZero(k: nat, u: int, n: nat)
    requires n > 0 && Pow2(n - 1) <= k < Pow2(n)
    ensures Affine(Ladder(k, u, n + 1)) == Affine(LadderResult(k, u, n, P))
  {
    FieldPrime.FieldModulusIsPrime();
    LeadingZeroMod(k, u, n, P);
  }

  lemma ZeroAffine(x: int, x': int, y: int, c: int, m: int)
    requires m > 0 && Scaled(x, x', c, m) && x == 0
    ensures Cong(x' * y, 0, m)
  {
    CongMul(x', 0, y, y, m);
  }
}

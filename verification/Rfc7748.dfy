/** The X25519 function of section 5 of RFC 7748, over the integers modulo 2^255 - 19,
    as a reference that knows nothing of limbs, bytes or pointer swaps. */
module Rfc7748 {
  import opened Modular
  import opened Bits
  import opened Limbs

  ghost function AddMod(a: int, b: int, m: int): int requires m > 0 { (a + b) % m }
  ghost function SubMod(a: int, b: int, m: int): int requires m > 0 { (a - b) % m }
  ghost function MulMod(a: int, b: int, m: int): int requires m > 0 { (a * b) % m }

  ghost function Mul(a: int, b: int): int { MulMod(a, b, P) }

  lemma AddResidue(a: int, b: int, m: int)
    requires m > 0
    ensures (a + b) % m == AddMod(a % m, b % m, m)
  {
    CongResidue(a, m);
    CongResidue(b, m);
    CongAdd(a, a % m, b, b % m, m);
  }

  lemma SubResidue(a: int, b: int, m: int)
    requires m > 0
    ensures (a - b) % m == SubMod(a % m, b % m, m)
  {
    CongResidue(a, m);
    CongResidue(b, m);
    CongSub(a, a % m, b, b % m, m);
  }

  lemma MulResidue(a: int, b: int, m: int)
    requires m > 0
    ensures (a * b) % m == MulMod(a % m, b % m, m)
  {
    CongResidue(a, m);
    CongResidue(b, m);
    CongMul(a, a % m, b, b % m, m);
  }

  /** The four working variables of the ladder. */
  datatype State = State(x2: int, z2: int, x3: int, z3: int)

  ghost function InitialMod(u: int, m: int): State requires m > 0 { State(1, 0, u % m, 1) }

  ghost function Swap(s: State): State {
    State(s.x3, s.z3, s.x2, s.z2)
  }

  /** The loop body between the conditional swaps, modulo m: doubling of 2 and addition of 2 and 3. */
  ghost function StepMod(x1: int, s: State, m: int): State
    requires m > 0
  {
    var a := AddMod(s.x2, s.z2, m);
    var aa := MulMod(a, a, m);
    var b := SubMod(s.x2, s.z2, m);
    var bb := MulMod(b, b, m);
    var e := SubMod(aa, bb, m);
    var c := AddMod(s.x3, s.z3, m);
    var d := SubMod(s.x3, s.z3, m);
    var da := MulMod(d, a, m);
    var cb := MulMod(c, b, m);
    State(MulMod(aa, bb, m), MulMod(e, AddMod(aa, MulMod(121665, e, m), m), m),
          MulMod(AddMod(da, cb, m), AddMod(da, cb, m), m),
          MulMod(x1, MulMod(SubMod(da, cb, m), SubMod(da, cb, m), m), m))
  }

  ghost function Step(x1: int, s: State): State {
    StepMod(x1, s, P)
  }

  /** Bit t of k, as (k >> t) & 1. */
  ghost predicate Bit(k: nat, t: nat) {
    Shift(k, t) % 2 == 1
  }

  /** The working variables and the pending swap after the first i of `total` iterations. */
  ghost function Loop(k: nat, u: int, total: nat, i: nat, m: int): (State, bool)
    requires i <= total && m > 0
    decreases i, k
  {
    if i == 0 then (InitialMod(u, m), false)
    else
      var (s, swap) := Loop(k, u, total, i - 1, m);
      var kt := Bit(k, total - i);
      (StepMod(u % m, if swap != kt then Swap(s) else s, m), kt)
  }

  ghost function Unswap(s: State, swap: bool): State {
    if swap then Swap(s) else s
  }

  /** The ladder's result as a fraction x2 / z2, after `total` iterations and the last swap. */
  ghost function LadderResult(k: nat, u: int, total: nat, m: int): State
    requires m > 0
  {
    var (s, swap) := Loop(k, u, total, total, m);
    Unswap(s, swap)
  }

  /** x2 * z2^(m - 2). */
  ghost function AffineMod(s: State, m: int): int
    requires m > 1
  {
    MulMod(s.x2, Pow(s.z2, m - 2), m)
  }

  ghost function Affine(s: State): int { AffineMod(s, P) }

  /** X25519(k, u): the ladder runs over the 255 low bits of k. */
  ghost function X25519(k: nat, u: int): int {
    Affine(LadderResult(k, u, 255, P))
  }

  // ------------------------------------------------------- the ladder without pending swaps

  /** One iteration in which the swap is undone at once. */
  ghost function LadderStepMod(bit: bool, u: int, s: State, m: int): State
    requires m > 0
  {
    Unswap(StepMod(u % m, Unswap(s, bit), m), bit)
  }

  ghost function LadderStep(bit: bool, u: int, s: State): State { LadderStepMod(bit, u, s, P) }

  /** The ladder over the low `count` bits of k, high bits first. */
  ghost function LadderMod(k: nat, u: int, count: nat, m: int): State
    requires m > 0
    decreases count, k
  {
    if count == 0 then InitialMod(u, m) else LadderStepMod(k % 2 == 1, u, LadderMod(k / 2, u, count - 1, m), m)
  }

  ghost function Ladder(k: nat, u: int, count: nat): State { LadderMod(k, u, count, P) }

  /** Deferring the swaps, as the reference does, changes nothing. */
  lemma {:induction false} LoopIsLadder(k: nat, u: int, total: nat, i: nat, m: int)
    requires i <= total && m > 0
    ensures var (s, swap) := Loop(k, u, total, i, m);
            Unswap(s, swap) == LadderMod(Shift(k, total - i), u, i, m)
  {
    if i > 0 {
      LoopIsLadder(k, u, total, i - 1, m);
      ShiftOnce(k, total - i);
    }
  }

  lemma ShiftOnce(k: nat, t: nat)
    ensures Shift(k, t) / 2 == Shift(k, t + 1)
  {
    DivDiv(k, Pow2(t), 2);
  }

  lemma LadderResultIs(k: nat, u: int, total: nat, m: int)
    requires m > 0
    ensures LadderResult(k, u, total, m) == LadderMod(k, u, total, m)
  {
    LoopIsLadder(k, u, total, total, m);
    assert Pow2(0) == 1;
  }
}

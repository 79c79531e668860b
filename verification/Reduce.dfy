/** Reduction of field elements: `freduce_degree` folds nineteen coefficients into ten
    limbs, and `freduce_coefficients` carries until every limb is small. */
module Reduce {
  import opened Modular
  import opened Limbs

  // ------------------------------------------------------------------ freduce_degree

  lemma {:induction false} FoldPrefix(s: seq<felem>, t: seq<felem>, n: nat)
    requires |s| == |t| == 19 && n <= 9
    requires forall k :: 0 <= k < 9 ==> t[k] as int == s[k] as int + 19 * (s[k + 10] as int)
    ensures Val(t, n) == Val(s, n) + 19 * High(s, n)
  {
    if n > 0 {
      FoldPrefix(s, t, n - 1);
      Factor(19, High(s, n - 1), Weight(n - 1), s[10 + n - 1] as int);
      FoldTerm(Weight(n - 1), s[n - 1] as int, s[n + 9] as int);
    }
  }

  lemma FoldTerm(w: int, x: int, y: int)
    ensures w * (x + 19 * y) == w * x + w * (19 * y)
  {
  }

  /** Since 2^255 is congruent to 19, folding the high limbs in keeps the residue. */
  lemma FoldValue(s: seq<felem>, t: seq<felem>)
    requires |s| == |t| == 19
    requires forall k :: 0 <= k < 9 ==> t[k] as int == s[k] as int + 19 * (s[k + 10] as int)
    requires t[9] == s[9]
    ensures Cong(Val(t, 10), Val(s, 19), P)
  {
    FoldPrefix(s, t, 9);
    ValSplit(s, 9);
    var h := High(s, 9);
    assert Val(t, 10) == Val(s, 10) + 19 * h;
    assert (P + 19) * h == P * h + 19 * h;
    CongFromQuotient(Val(s, 19), Val(t, 10), h, P);
  }

  /** Reduce a long form to a short form. */
  method FreduceDegree(output: array<felem>)
    requires output.Length == 19
    requires forall k :: 0 <= k < 19 ==> -PRODUCT_MAX <= output[k] as int <= PRODUCT_MAX
    modifies output
    ensures Within(output, LOOSE_MAX)
    ensures Cong(Short(output), old(Val(output[..], 19)), P)
  {
    ghost var s := output[..];
    FoldLimbs(output);
    FoldValue(s, output[..]);
  }

  method FoldLimbs(output: array<felem>)
    requires output.Length == 19
    requires forall k :: 0 <= k < 19 ==> -PRODUCT_MAX <= output[k] as int <= PRODUCT_MAX
    modifies output
    ensures forall k :: 0 <= k < 9 ==> output[k] as int == old(output[k] as int) + 19 * old(output[k + 10] as int)
    ensures forall k :: 9 <= k < 19 ==> output[k] == old(output[k])
  {
    FoldLimb(output, 8);
    FoldLimb(output, 7);
    FoldLimb(output, 6);
    FoldLimb(output, 5);
    FoldLimb(output, 4);
    FoldLimb(output, 3);
    FoldLimb(output, 2);
    FoldLimb(output, 1);
    FoldLimb(output, 0);
  }

  /** output[k] += 19 * output[k + 10]. */
  method FoldLimb(output: array<felem>, k: nat)
    requires k < 9 && output.Length == 19
    requires -PRODUCT_MAX <= output[k] as int <= PRODUCT_MAX
    requires -PRODUCT_MAX <= output[k + 10] as int <= PRODUCT_MAX
    modifies output
    ensures output[..] == old(output[..])[k := output[k]]
    ensures output[k] as int == old(output[k] as int) + 19 * output[k + 10] as int
  {
    output[k] := output[k] + 19 * output[k + 10];
  }

  // ------------------------------------------------------------ freduce_coefficients

  /** The program's `/` on limbs. */
  function Quotient(x: felem, d: felem): (q: felem)
    requires d > 0
    ensures x >= 0 ==> q as int * d as int <= x as int < (q as int + 1) * d as int
    ensures x < 0 ==> (q as int - 1) * d as int < x as int <= q as int * d as int
  {
    TruncDiv(x as int, d as int) as felem
  }

  /** x >> 63 on a signed 64-bit number. */
  function SignWord(x: felem): felem {
    if x < 0 then -1 else 0
  }

  /** Carry the excess of even limb i, rounded to nearest, into limb i + 1. */
  method CarryEven(output: array<felem>, i: nat) returns (ghost carry: int)
    requires i % 2 == 0 && i + 1 < 11 <= output.Length
    requires -LOOSE_MAX - 0x80_0000_0000 <= output[i] as int <= LOOSE_MAX + 0x80_0000_0000
    requires -LOOSE_MAX <= output[i + 1] as int <= LOOSE_MAX
    modifies output
    ensures output[i] as int == old(output[i] as int) - 0x4000000 * carry
    ensures output[i + 1] as int == old(output[i + 1] as int) + carry
    ensures forall k :: 0 <= k < output.Length && k != i && k != i + 1 ==> output[k] == old(output[k])
    ensures -LIMB_MAX <= output[i] as int <= LIMB_MAX
    ensures Val(output[..], 11) == old(Val(output[..], 11))
  {
    ghost var s := output[..];
    var over := Quotient(output[i], 0x2000000);
    var over2 := Quotient(over + SignWord(over) * 2 + 1, 2);
    output[i + 1] := output[i + 1] + over2;
    output[i] := output[i] - over2 * 0x4000000;
    carry := over2 as int;
    assert output[..] == s[i := output[i]][i + 1 := output[i + 1]];
    ValCarry(s, i, output[i], output[i + 1], carry, 11);
  }

  /** Carry the excess of odd limb i, truncated toward zero, into limb i + 1. */
  method CarryOdd(output: array<felem>, i: nat) returns (ghost carry: int)
    requires i % 2 == 1 && i + 1 < 11 <= output.Length
    requires -LOOSE_MAX - 0x80_0000_0000 <= output[i] as int <= LOOSE_MAX + 0x80_0000_0000
    requires -LOOSE_MAX <= output[i + 1] as int <= LOOSE_MAX
    modifies output
    ensures output[i] as int == old(output[i] as int) - 0x2000000 * carry
    ensures output[i + 1] as int == old(output[i + 1] as int) + carry
    ensures forall k :: 0 <= k < output.Length && k != i && k != i + 1 ==> output[k] == old(output[k])
    ensures -LIMB_MAX < output[i] as int < LIMB_MAX
    ensures old(output[i]) >= 0 ==> carry >= 0 && output[i] >= 0
    ensures old(output[i]) <= 0 ==> carry <= 0 && output[i] <= 0
    ensures Val(output[..], 11) == old(Val(output[..], 11))
  {
    ghost var s := output[..];
    var over := Quotient(output[i], 0x2000000);
    output[i + 1] := output[i + 1] + over;
    output[i] := output[i] - over * 0x2000000;
    carry := over as int;
    assert output[..] == s[i := output[i]][i + 1 := output[i + 1]];
    ValCarry(s, i, output[i], output[i + 1], carry, 11);
  }

  /** Limbs 1 to 9 are reduced and limb 0 is at most `bound` in magnitude. */
  ghost predicate AlmostReduced(s: seq<felem>, bound: int)
    requires |s| >= 10
  {
    && -bound <= s[0] as int <= bound
    && forall k :: 1 <= k < 10 ==> ReducedLimb(s[k], k)
  }

  /** 2^43, which bounds limb 0 after the first pass. */
  const FIRST_MAX: int := 0x800_0000_0000
  /** 2^25 + 19, which bounds it after the second. */
  const SECOND_MAX: int := LIMB_MAX + 19

  /** One iteration over a pair of limbs, for the even position i. */
  method CarryPair(output: array<felem>, i: nat) returns (ghost carry: int, ghost carry2: int)
    requires i % 2 == 0 && i + 2 < 11 <= output.Length
    requires -LOOSE_MAX - 0x40_0000_0000 <= output[i] as int <= LOOSE_MAX + 0x40_0000_0000
    requires forall k :: i < k <= i + 2 ==> -LOOSE_MAX <= output[k] as int <= LOOSE_MAX
    modifies output
    ensures ReducedLimb(output[i], i) && ReducedLimb(output[i + 1], i + 1)
    ensures forall k :: 0 <= k < output.Length && !(i <= k <= i + 2) ==> output[k] == old(output[k])
    ensures output[i] as int == old(output[i] as int) - 0x4000000 * carry
    ensures output[i + 1] as int == old(output[i + 1] as int) + carry - 0x2000000 * carry2
    ensures old(output[i + 1] as int) + carry >= 0 ==> carry2 >= 0 && output[i + 1] >= 0
    ensures old(output[i + 1] as int) + carry <= 0 ==> carry2 <= 0 && output[i + 1] <= 0
    ensures output[i + 2] as int == old(output[i + 2] as int) + carry2
    ensures Val(output[..], 11) == old(Val(output[..], 11))
  {
    carry := CarryEven(output, i);
    carry2 := CarryOdd(output, i + 1);
  }

  /** The inner loop.  Its last two promises are what makes the outer loop stop: a carry out
      of limb 9 that is left over from almost reduced limbs is at most 1, leaves limb 9 at
      zero, and so cannot happen twice. */
  method CarryAll(output: array<felem>)
    requires output.Length >= 11
    requires Within(output, LOOSE_MAX) && output[10] == 0
    modifies output
    ensures Reduced(output)
    ensures -0x40_0000_0000 <= output[10] as int <= 0x40_0000_0000
    ensures Val(output[..], 11) == old(Val(output[..], 11))
    ensures forall k :: 11 <= k < output.Length ==> output[k] == old(output[k])
    ensures old(AlmostReduced(output[..], FIRST_MAX)) ==> -1 <= output[10] <= 1 && (output[10] != 0 ==> output[9] == 0)
    ensures old(AlmostReduced(output[..], SECOND_MAX)) && old(output[9]) == 0 ==> output[10] == 0
  {
    ghost var s := output[..];
    ghost var carryIn := 0;
    var i := 0;
    while i < 10
      invariant 0 <= i <= 10 && i % 2 == 0
      invariant forall k :: 0 <= k < i ==> ReducedLimb(output[k], k)
      invariant output[i] as int == s[i] as int + carryIn
      invariant forall k :: i < k < output.Length ==> output[k] == s[k]
      invariant -0x40_0000_0000 <= carryIn <= 0x40_0000_0000
      invariant AlmostReduced(s, FIRST_MAX) ==> -1 <= carryIn <= 1
      invariant i == 0 ==> carryIn == 0
      invariant AlmostReduced(s, FIRST_MAX) && i == 10 && carryIn != 0 ==> output[9] == 0
      invariant AlmostReduced(s, SECOND_MAX) && s[9] == 0 && i == 10 ==> carryIn == 0
      invariant Val(output[..], 11) == Val(s, 11)
    {
      ghost var carry, carry2 := CarryPair(output, i);
      carryIn := carry2;
      i := i + 2;
    }
  }

  /** The body of the do-while loop. */
  method ReducePass(output: array<felem>)
    requires output.Length >= 11
    requires Within(output, LOOSE_MAX)
    modifies output
    ensures Cong(Short(output), old(Short(output)), P)
    ensures output[10] == 0 ==> Reduced(output)
    ensures AlmostReduced(output[..], FIRST_MAX)
    ensures old(AlmostReduced(output[..], FIRST_MAX)) && output[10] != 0
        ==> AlmostReduced(output[..], SECOND_MAX) && output[9] == 0
    ensures old(AlmostReduced(output[..], SECOND_MAX)) && old(output[9]) == 0 ==> output[10] == 0
    ensures forall k :: 11 <= k < output.Length ==> output[k] == old(output[k])
  {
    ghost var before := output[..];
    output[10] := 0;
    ghost var s := output[..];
    CarryAll(output);
    ghost var t := output[..];
    output[0] := output[0] + 19 * output[10];
    PassValue(before, s, t, output[..]);
  }

  lemma PassValue(before: seq<felem>, s: seq<felem>, t: seq<felem>, after: seq<felem>)
    requires |before| == |s| == |t| == |after| && |s| >= 11
    requires s == before[10 := 0]
    requires Val(t, 11) == Val(s, 11)
    requires after == t[0 := after[0]]
    requires after[0] as int == t[0] as int + 19 * (t[10] as int)
    ensures Cong(Val(after, 10), Val(before, 10), P)
  {
    ValAgree(before, s, 10);
    ValEleven(s);
    ValEleven(t);
    ValUpdate(t, 0, after[0], 10);
    var c := t[10] as int;
    assert Weight(0) == 1;
    CongFromQuotient(Val(before, 10), Val(after, 10), c, P);
  }

  lemma ValEleven(t: seq<felem>)
    requires |t| >= 11
    ensures Val(t, 11) == Val(t, 10) + 19 * (t[10] as int) + (t[10] as int) * P
  {
    WeightTen();
  }

  /** Reduce all coefficients of the short form.  The loop makes at most three passes. */
  method FreduceCoefficients(output: array<felem>)
    requires output.Length >= 11
    requires Within(output, LOOSE_MAX)
    modifies output
    ensures Reduced(output)
    ensures output[10] == 0
    ensures Cong(Short(output), old(Short(output)), P)
    ensures forall k :: 11 <= k < output.Length ==> output[k] == old(output[k])
  {
    ReducePass(output);
    ghost var passes := 1;
    while output[10] != 0
      invariant 1 <= passes <= 3
      invariant Within(output, LOOSE_MAX)
      invariant output[10] == 0 ==> Reduced(output)
      invariant AlmostReduced(output[..], FIRST_MAX)
      invariant passes >= 2 && output[10] != 0 ==> AlmostReduced(output[..], SECOND_MAX) && output[9] == 0
      invariant passes == 3 ==> output[10] == 0
      invariant Cong(Short(output), old(Short(output)), P)
      invariant forall k :: 11 <= k < output.Length ==> output[k] == old(output[k])
      decreases 3 - passes
    {
      ReducePass(output);
      passes := passes + 1;
    }
  }
}

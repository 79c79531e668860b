/** The Montgomery ladder in limb form: `fmonty` and `cmult`. */
module Montgomery {
  import opened Modular
  import opened Bits
  import opened Limbs
  import opened Multiply
  import opened FieldOps
  import opened Reduce
  import Rfc = Rfc7748

  /** Limb by limb, the magnitudes of a and b add up to at most 2^26. */
  ghost predicate Addable(a: array<felem>, b: array<felem>)
    requires a.Length >= 10 && b.Length >= 10
    reads a, b
  {
    forall k :: 0 <= k < 10 ==>
      && -FACTOR_MAX <= a[k] as int + b[k] as int <= FACTOR_MAX
      && -FACTOR_MAX <= a[k] as int - b[k] as int <= FACTOR_MAX
  }

  lemma ReducedAddable(a: array<felem>, b: array<felem>)
    requires a.Length >= 10 && b.Length >= 10
    requires Reduced(a) && Reduced(b)
    ensures Addable(a, b)
  {
    ReducedIsWithin(a);
    ReducedIsWithin(b);
  }

  lemma ReducedIsFactor(a: array<felem>)
    requires a.Length >= 10 && Reduced(a)
    ensures Within(a, FACTOR_MAX)
  {
    ReducedIsWithin(a);
  }

  /** x, z := x + z, x - z, through a copy of x. */
  method SumAndDifference(x: array<felem>, z: array<felem>)
    requires x.Length >= 10 && z.Length >= 10 && x != z
    requires Addable(x, z)
    modifies x, z
    ensures Within(x, FACTOR_MAX) && Within(z, FACTOR_MAX)
    ensures Short(x) == old(Short(x)) + old(Short(z))
    ensures Short(z) == old(Short(x)) - old(Short(z))
  {
    var origx := new felem[10];
    Copy(origx, x);
    Fsum(x, z);
    Fdifference(z, origx);
  }

  /** The two cross products of a differential addition, and then their sum and difference:
      with x = A, z = B, xprime = C and zprime = D in the names of RFC 7748,
      xxprime := CB + DA and zzprime := CB - DA. */
  method CrossProducts(xxprime: array<felem>, zzprime: array<felem>, x: array<felem>, z: array<felem>,
      xprime: array<felem>, zprime: array<felem>) returns (ghost cb: int, ghost da: int)
    requires xxprime.Length == 19 && zzprime.Length == 19 && xxprime != zzprime
    requires x.Length >= 10 && z.Length >= 10 && xprime.Length >= 10 && zprime.Length >= 10
    requires {xxprime, zzprime} !! {x, z, xprime, zprime}
    requires Within(x, FACTOR_MAX) && Within(z, FACTOR_MAX)
    requires Within(xprime, FACTOR_MAX) && Within(zprime, FACTOR_MAX)
    modifies xxprime, zzprime
    ensures Within(xxprime, FACTOR_MAX) && Within(zzprime, FACTOR_MAX)
    ensures Cong(cb, Short(xprime) * Short(z), P)
    ensures Cong(da, Short(x) * Short(zprime), P)
    ensures Short(xxprime) == cb + da && Short(zzprime) == cb - da
  {
    MulReduce(xxprime, xprime, z);
    MulReduce(zzprime, x, zprime);
    cb, da := Short(xxprime), Short(zzprime);
    ReducedAddable(xxprime, zzprime);
    SumAndDifference(xxprime, zzprime);
  }

  /** The differential addition: x3 := (CB + DA)^2 and z3 := (CB - DA)^2 * x1. */
  method CrossAdd(x3: array<felem>, z3: array<felem>, x: array<felem>, z: array<felem>,
      xprime: array<felem>, zprime: array<felem>, qmqp: array<felem>)
    returns (ghost cb: int, ghost da: int, ghost sq: int)
    requires x3.Length >= 10 && z3.Length >= 10 && x3 != z3 && qmqp.Length >= 10
    requires x.Length >= 10 && z.Length >= 10 && xprime.Length >= 10 && zprime.Length >= 10
    requires {x3, z3} !! {x, z, xprime, zprime, qmqp}
    requires Within(x, FACTOR_MAX) && Within(z, FACTOR_MAX) && Within(qmqp, FACTOR_MAX)
    requires Within(xprime, FACTOR_MAX) && Within(zprime, FACTOR_MAX)
    modifies x3, z3
    ensures Reduced(x3) && Reduced(z3)
    ensures Cong(cb, Short(xprime) * Short(z), P)
    ensures Cong(da, Short(x) * Short(zprime), P)
    ensures Cong(Short(x3), (cb + da) * (cb + da), P)
    ensures Cong(sq, (cb - da) * (cb - da), P)
    ensures Cong(Short(z3), sq * Short(qmqp), P)
  {
    var xxprime, zzprime := new felem[19], new felem[19];
    var zzzprime := new felem[10];
    cb, da := CrossProducts(xxprime, zzprime, x, z, xprime, zprime);
    Fsquare(x3, xxprime);
    Fsquare(zzzprime, zzprime);
    sq := Short(zzzprime);
    ReducedIsFactor(zzzprime);
    MulReduce(zzprime, zzzprime, qmqp);
    Copy(z3, zzprime);
  }

  /** The doubling: from x = A and z = B, with E = AA - BB, x2 := AA * BB and
      z2 := E * (AA + 121665 * E). */
  method Double(x2: array<felem>, z2: array<felem>, x: array<felem>, z: array<felem>)
    returns (ghost aa: int, ghost bb: int, ghost w: int)
    requires x2.Length == 19 && z2.Length == 19 && x2 != z2
    requires x.Length >= 10 && z.Length >= 10
    requires {x2, z2} !! {x, z}
    requires Within(x, FACTOR_MAX) && Within(z, FACTOR_MAX)
    modifies x2, z2
    ensures Reduced(x2) && Reduced(z2)
    ensures Cong(aa, Short(x) * Short(x), P)
    ensures Cong(bb, Short(z) * Short(z), P)
    ensures Cong(Short(x2), aa * bb, P)
    ensures Cong(w, 121665 * (aa - bb), P)
    ensures Cong(Short(z2), (aa - bb) * (w + aa), P)
  {
    var xx, zz := new felem[10], new felem[10];
    Fsquare(xx, x);
    Fsquare(zz, z);
    aa, bb := Short(xx), Short(zz);
    ReducedIsFactor(xx);
    ReducedIsFactor(zz);
    MulReduce(x2, xx, zz);
    w := DoubleZ(z2, xx, zz);
  }

  /** The second half of the doubling, which leaves E in zz. */
  method DoubleZ(z2: array<felem>, xx: array<felem>, zz: array<felem>) returns (ghost w: int)
    requires z2.Length == 19 && xx.Length >= 10 && zz.Length >= 10 && xx != zz
    requires z2 != xx && z2 != zz
    requires Reduced(xx) && Reduced(zz)
    modifies z2, zz
    ensures Reduced(z2)
    ensures Cong(w, 121665 * (Short(xx) - old(Short(zz))), P)
    ensures Cong(Short(z2), (Short(xx) - old(Short(zz))) * (w + Short(xx)), P)
  {
    ReducedAddable(xx, zz);
    Fdifference(zz, xx);
    var zzz := new felem[19](_ => 0);
    FscalarProduct(zzz, zz, 121665);
    ghost var scaled := zzz[..];
    HighLimbsZero(scaled);
    FreduceDegree(zzz);
    FreduceCoefficients(zzz);
    w := Short(zzz);
    ReducedAddable(zzz, xx);
    Fsum(zzz, xx);
    MulReduce(z2, zz, zzz);
  }

  /** Zero high limbs add nothing to the value. */
  lemma HighLimbsZero(s: seq<felem>)
    requires |s| == 19 && forall k :: 10 <= k < 19 ==> s[k] == 0
    ensures Val(s, 19) == Val(s, 10)
  {
    HighZero(s, 9);
    ValSplit(s, 9);
  }

  lemma {:induction false} HighZero(s: seq<felem>, n: nat)
    requires 10 + n <= |s| && forall k :: 10 <= k < 10 + n ==> s[k] == 0
    ensures High(s, n) == 0
  {
    if n > 0 { HighZero(s, n - 1); }
  }

  // --------------------------------------------------------------------------- fmonty

  /** The residues of four short forms, as a state of the reference ladder. */
  ghost function Residues(x: array<felem>, z: array<felem>, xprime: array<felem>, zprime: array<felem>): Rfc.State
    requires x.Length >= 10 && z.Length >= 10 && xprime.Length >= 10 && zprime.Length >= 10
    reads x, z, xprime, zprime
  {
    ResidueState(x[..], z[..], xprime[..], zprime[..])
  }

  /** The squares that `Double` makes are the reference's AA and BB. */
  lemma SquaresRefine(x: int, z: int, aa: int, bb: int, s: Rfc.State, m: int)
    requires m > 0 && s.x2 == x % m && s.z2 == z % m
    requires Cong(aa, (x + z) * (x + z), m) && Cong(bb, (x - z) * (x - z), m)
    ensures Rfc.MulMod(Rfc.AddMod(s.x2, s.z2, m), Rfc.AddMod(s.x2, s.z2, m), m) == aa % m
    ensures Rfc.MulMod(Rfc.SubMod(s.x2, s.z2, m), Rfc.SubMod(s.x2, s.z2, m), m) == bb % m
  {
    Rfc.AddResidue(x, z, m);
    Rfc.SubResidue(x, z, m);
    Rfc.MulResidue(x + z, x + z, m);
    Rfc.MulResidue(x - z, x - z, m);
  }

  /** The sums and products that `Double` makes are the reference's new x2 and z2. */
  lemma DoubleRefines(x: int, z: int, aa: int, bb: int, w: int, x2: int, z2: int, x1: int, s: Rfc.State, m: int)
    requires m > 0 && s.x2 == x % m && s.z2 == z % m
    requires Cong(aa, (x + z) * (x + z), m) && Cong(bb, (x - z) * (x - z), m)
    requires Cong(x2, aa * bb, m)
    requires Cong(w, 121665 * (aa - bb), m)
    requires Cong(z2, (aa - bb) * (w + aa), m)
    ensures x2 % m == Rfc.StepMod(x1, s, m).x2
    ensures z2 % m == Rfc.StepMod(x1, s, m).z2
  {
    SquaresRefine(x, z, aa, bb, s, m);
    Rfc.MulResidue(aa, bb, m);
    Rfc.SubResidue(aa, bb, m);
    CongResidue(121665, m);
    CongResidue(aa - bb, m);
    CongMul(121665, 121665, aa - bb, (aa - bb) % m, m);
    Rfc.AddResidue(aa, w, m);
    Rfc.MulResidue(aa - bb, w + aa, m);
  }

  /** The same for `CrossAdd`: the sign of CB - DA disappears in the square. */
  lemma CrossRefines(x: int, z: int, xp: int, zp: int, cb: int, da: int, sq: int, x3: int, z3: int,
      x1: int, s: Rfc.State, m: int)
    requires m > 0 && s == Rfc.State(x % m, z % m, xp % m, zp % m)
    requires Cong(cb, (xp + zp) * (x - z), m) && Cong(da, (x + z) * (xp - zp), m)
    requires Cong(x3, (cb + da) * (cb + da), m)
    requires Cong(sq, (cb - da) * (cb - da), m)
    requires Cong(z3, sq * x1, m)
    ensures x3 % m == Rfc.StepMod(x1 % m, s, m).x3
    ensures z3 % m == Rfc.StepMod(x1 % m, s, m).z3
  {
    CrossFactors(x, z, xp, zp, cb, da, s, m);
    Rfc.AddResidue(da, cb, m);
    Rfc.MulResidue(da + cb, da + cb, m);
    Rfc.SubResidue(da, cb, m);
    Rfc.MulResidue(da - cb, da - cb, m);
    assert (cb - da) * (cb - da) == (da - cb) * (da - cb);
    Rfc.MulResidue(x1, sq, m);
    assert sq * x1 == x1 * sq;
  }

  lemma CrossFactors(x: int, z: int, xp: int, zp: int, cb: int, da: int, s: Rfc.State, m: int)
    requires m > 0 && s == Rfc.State(x % m, z % m, xp % m, zp % m)
    requires Cong(cb, (xp + zp) * (x - z), m) && Cong(da, (x + z) * (xp - zp), m)
    ensures cb % m == Rfc.MulMod(Rfc.AddMod(s.x3, s.z3, m), Rfc.SubMod(s.x2, s.z2, m), m)
    ensures da % m == Rfc.MulMod(Rfc.SubMod(s.x3, s.z3, m), Rfc.AddMod(s.x2, s.z2, m), m)
  {
    Rfc.AddResidue(x, z, m);
    Rfc.SubResidue(x, z, m);
    Rfc.AddResidue(xp, zp, m);
    Rfc.SubResidue(xp, zp, m);
    Rfc.MulResidue(xp + zp, x - z, m);
    Rfc.MulResidue(xp - zp, x + z, m);
    assert (x + z) * (xp - zp) == (xp - zp) * (x + z);
  }

  /** The eight arrays of the ladder and the point are nine different arrays. */
  ghost predicate Separate(a: array<felem>, b: array<felem>, c: array<felem>, d: array<felem>,
      e: array<felem>, f: array<felem>, g: array<felem>, h: array<felem>, q: array<felem>)
  {
    && a.Length == b.Length == c.Length == d.Length == e.Length == f.Length == g.Length == h.Length == 19
    && q.Length >= 10
    && a != b && a != c && a != d && a != e && a != f && a != g && a != h && a != q
    && b != c && b != d && b != e && b != f && b != g && b != h && b != q
    && c != d && c != e && c != f && c != g && c != h && c != q
    && d != e && d != f && d != g && d != h && d != q
    && e != f && e != g && e != h && e != q
    && f != g && f != h && f != q
    && g != h && g != q
    && h != q
  }

  /** One ladder step: from Q = (x, z), Q' = (xprime, zprime) and Q - Q', computes 2Q and Q + Q'. */
  method Fmonty(x2: array<felem>, z2: array<felem>, x3: array<felem>, z3: array<felem>,
      x: array<felem>, z: array<felem>, xprime: array<felem>, zprime: array<felem>, qmqp: array<felem>)
    requires Separate(x2, z2, x3, z3, x, z, xprime, zprime, qmqp)
    requires Addable(x, z) && Addable(xprime, zprime) && Within(qmqp, FACTOR_MAX)
    modifies x2, z2, x3, z3, x, z, xprime, zprime
    ensures Reduced(x2) && Reduced(z2) && Reduced(x3) && Reduced(z3)
    ensures Residues(x2, z2, x3, z3) == Rfc.Step(Short(qmqp) % P, old(Residues(x, z, xprime, zprime)))
  {
    ghost var s := Residues(x, z, xprime, zprime);
    ghost var vx, vz, vxp, vzp := Short(x), Short(z), Short(xprime), Short(zprime);
    SumAndDifference(x, z);
    SumAndDifference(xprime, zprime);
    ghost var cb, da, sq := CrossAdd(x3, z3, x, z, xprime, zprime, qmqp);
    ghost var aa, bb, w := Double(x2, z2, x, z);
    CrossRefines(vx, vz, vxp, vzp, cb, da, sq, Short(x3), Short(z3), Short(qmqp), s, P);
    DoubleRefines(vx, vz, aa, bb, w, Short(x2), Short(z2), Short(qmqp) % P, s, P);
  }

  // ---------------------------------------------------------------------------- cmult

  lemma TopBit(b: u8)
    ensures And(b as nat, 0x80) != 0 <==> b >= 0x80
  {
    AndSingle(b as nat, 7);
    assert Pow2(7) == 0x80;
  }

  /** byte & 0x80. */
  method TestTopBit(b: u8) returns (bit: bool)
    ensures bit <==> b >= 0x80
  {
    TopBit(b);
    bit := And(b as nat, 0x80) != 0;
  }

  /** byte <<= 1, which drops the top bit. */
  method ShiftLeft(b: u8) returns (r: u8)
    ensures r as int == 2 * (b as int) - if b >= 0x80 then 0x100 else 0
  {
    r := (2 * (b as int) % 0x100) as u8;
  }

  method LadderOne(nqx: array<felem>, nqz: array<felem>, nqpqx: array<felem>, nqpqz: array<felem>,
      nqx2: array<felem>, nqz2: array<felem>, nqpqx2: array<felem>, nqpqz2: array<felem>, q: array<felem>)
    requires Separate(nqx, nqz, nqpqx, nqpqz, nqx2, nqz2, nqpqx2, nqpqz2, q)
    requires Within(q, FACTOR_MAX)
    requires Addable(nqx, nqz) && Addable(nqpqx, nqpqz)
    modifies nqx, nqz, nqpqx, nqpqz, nqx2, nqz2, nqpqx2, nqpqz2
    ensures Addable(nqx2, nqz2) && Addable(nqpqx2, nqpqz2)
    ensures Reduced(nqx2) && Reduced(nqz2)
    ensures Residues(nqx2, nqz2, nqpqx2, nqpqz2) == Rfc.LadderStep(true, Short(q), old(Residues(nqx, nqz, nqpqx, nqpqz)))
  {
    Fmonty(nqpqx2, nqpqz2, nqx2, nqz2, nqpqx, nqpqz, nqx, nqz, q);
    ReducedAddable(nqx2, nqz2);
    ReducedAddable(nqpqx2, nqpqz2);
  }

  method LadderZero(nqx: array<felem>, nqz: array<felem>, nqpqx: array<felem>, nqpqz: array<felem>,
      nqx2: array<felem>, nqz2: array<felem>, nqpqx2: array<felem>, nqpqz2: array<felem>, q: array<felem>)
    requires Separate(nqx, nqz, nqpqx, nqpqz, nqx2, nqz2, nqpqx2, nqpqz2, q)
    requires Within(q, FACTOR_MAX)
    requires Addable(nqx, nqz) && Addable(nqpqx, nqpqz)
    modifies nqx, nqz, nqpqx, nqpqz, nqx2, nqz2, nqpqx2, nqpqz2
    ensures Addable(nqx2, nqz2) && Addable(nqpqx2, nqpqz2)
    ensures Reduced(nqx2) && Reduced(nqz2)
    ensures Residues(nqx2, nqz2, nqpqx2, nqpqz2) == Rfc.LadderStep(false, Short(q), old(Residues(nqx, nqz, nqpqx, nqpqz)))
  {
    Fmonty(nqx2, nqz2, nqpqx2, nqpqz2, nqx, nqz, nqpqx, nqpqz, q);
    ReducedAddable(nqx2, nqz2);
    ReducedAddable(nqpqx2, nqpqz2);
  }

  /** What the ladder keeps between two steps, over the contents of the arrays: limbs small
      enough for the next step, with the residues of the reference ladder over the `count`
      bits read so far, which make up the number m. */
  ghost predicate OnLadder(x: seq<felem>, z: seq<felem>, px: seq<felem>, pz: seq<felem>, q: seq<felem>, m: nat, count: nat) {
    && |x| >= 10 && |z| >= 10 && |px| >= 10 && |pz| >= 10 && |q| >= 10
    && WithinSeq(q, 10, FACTOR_MAX)
    && AddableSeq(x, z) && AddableSeq(px, pz)
    && (count > 0 ==> ReducedSeq(x) && ReducedSeq(z))
    && ResidueState(x, z, px, pz) == Rfc.Ladder(m, Val(q, 10), count)
  }

  ghost function ResidueState(x: seq<felem>, z: seq<felem>, px: seq<felem>, pz: seq<felem>): Rfc.State
    requires |x| >= 10 && |z| >= 10 && |px| >= 10 && |pz| >= 10
  {
    Rfc.State(Val(x, 10) % P, Val(z, 10) % P, Val(px, 10) % P, Val(pz, 10) % P)
  }

  ghost predicate AddableSeq(a: seq<felem>, b: seq<felem>)
    requires |a| >= 10 && |b| >= 10
  {
    forall k :: 0 <= k < 10 ==>
      && -FACTOR_MAX <= a[k] as int + b[k] as int <= FACTOR_MAX
      && -FACTOR_MAX <= a[k] as int - b[k] as int <= FACTOR_MAX
  }

  ghost predicate ReducedSeq(a: seq<felem>)
    requires |a| >= 10
  {
    forall k :: 0 <= k < 10 ==> ReducedLimb(a[k], k)
  }

  lemma OnLadderNext(bit: bool, x: seq<felem>, z: seq<felem>, px: seq<felem>, pz: seq<felem>,
      x2: seq<felem>, z2: seq<felem>, px2: seq<felem>, pz2: seq<felem>, q: seq<felem>, m: nat, count: nat)
    requires OnLadder(x, z, px, pz, q, m, count)
    requires |x2| >= 10 && |z2| >= 10 && |px2| >= 10 && |pz2| >= 10
    requires ReducedSeq(x2) && ReducedSeq(z2) && AddableSeq(x2, z2) && AddableSeq(px2, pz2)
    requires ResidueState(x2, z2, px2, pz2) == Rfc.LadderStep(bit, Val(q, 10), ResidueState(x, z, px, pz))
    ensures OnLadder(x2, z2, px2, pz2, q, 2 * m + if bit then 1 else 0, count + 1)
  {
  }

  type Invariant = (seq<felem>, seq<felem>, seq<felem>, seq<felem>, seq<felem>, nat, nat) -> bool

  /** `inv` is the ladder's invariant.  The loops below only pass it on from step to step, so
      they are proved for a name that stands for it. */
  ghost predicate Names(inv: Invariant) {
    forall x, z, px, pz, q, m, count {:trigger OnLadder(x, z, px, pz, q, m, count)} ::
      inv(x, z, px, pz, q, m, count) == OnLadder(x, z, px, pz, q, m, count)
  }

  /** A bit 1. */
  method NamedOne(ghost inv: Invariant, nqx: array<felem>, nqz: array<felem>, nqpqx: array<felem>, nqpqz: array<felem>,
      nqx2: array<felem>, nqz2: array<felem>, nqpqx2: array<felem>, nqpqz2: array<felem>,
      q: array<felem>, ghost m: nat, ghost count: nat)
    requires Names(inv)
    requires Separate(nqx, nqz, nqpqx, nqpqz, nqx2, nqz2, nqpqx2, nqpqz2, q)
    requires inv(nqx[..], nqz[..], nqpqx[..], nqpqz[..], q[..], m, count)
    modifies nqx, nqz, nqpqx, nqpqz, nqx2, nqz2, nqpqx2, nqpqz2
    ensures inv(nqx2[..], nqz2[..], nqpqx2[..], nqpqz2[..], q[..], 2 * m + 1, count + 1)
  {
    ghost var x, z, px, pz := nqx[..], nqz[..], nqpqx[..], nqpqz[..];
    assert OnLadder(x, z, px, pz, q[..], m, count);
    LadderOne(nqx, nqz, nqpqx, nqpqz, nqx2, nqz2, nqpqx2, nqpqz2, q);
    OnLadderNext(true, x, z, px, pz, nqx2[..], nqz2[..], nqpqx2[..], nqpqz2[..], q[..], m, count);
  }

  /** A bit 0. */
  method NamedZero(ghost inv: Invariant, nqx: array<felem>, nqz: array<felem>, nqpqx: array<felem>, nqpqz: array<felem>,
      nqx2: array<felem>, nqz2: array<felem>, nqpqx2: array<felem>, nqpqz2: array<felem>,
      q: array<felem>, ghost m: nat, ghost count: nat)
    requires Names(inv)
    requires Separate(nqx, nqz, nqpqx, nqpqz, nqx2, nqz2, nqpqx2, nqpqz2, q)
    requires inv(nqx[..], nqz[..], nqpqx[..], nqpqz[..], q[..], m, count)
    modifies nqx, nqz, nqpqx, nqpqz, nqx2, nqz2, nqpqx2, nqpqz2
    ensures inv(nqx2[..], nqz2[..], nqpqx2[..], nqpqz2[..], q[..], 2 * m, count + 1)
  {
    ghost var x, z, px, pz := nqx[..], nqz[..], nqpqx[..], nqpqz[..];
    assert OnLadder(x, z, px, pz, q[..], m, count);
    LadderZero(nqx, nqz, nqpqx, nqpqz, nqx2, nqz2, nqpqx2, nqpqz2, q);
    OnLadderNext(false, x, z, px, pz, nqx2[..], nqz2[..], nqpqx2[..], nqpqz2[..], q[..], m, count);
  }

  /** One iteration of the inner loop, up to the exchange of the old and new arrays. */
  method LadderBit(ghost inv: Invariant, bit: bool, nqx: array<felem>, nqz: array<felem>, nqpqx: array<felem>, nqpqz: array<felem>,
      nqx2: array<felem>, nqz2: array<felem>, nqpqx2: array<felem>, nqpqz2: array<felem>,
      q: array<felem>, ghost m: nat, ghost count: nat)
    requires Names(inv)
    requires Separate(nqx, nqz, nqpqx, nqpqz, nqx2, nqz2, nqpqx2, nqpqz2, q)
    requires inv(nqx[..], nqz[..], nqpqx[..], nqpqz[..], q[..], m, count)
    modifies nqx, nqz, nqpqx, nqpqz, nqx2, nqz2, nqpqx2, nqpqz2
    ensures inv(nqx2[..], nqz2[..], nqpqx2[..], nqpqz2[..], q[..], 2 * m + if bit then 1 else 0, count + 1)
  {
    if bit {
      NamedOne(inv, nqx, nqz, nqpqx, nqpqz, nqx2, nqz2, nqpqx2, nqpqz2, q, m, count);
    } else {
      NamedZero(inv, nqx, nqz, nqpqx, nqpqz, nqx2, nqz2, nqpqx2, nqpqz2, q, m, count);
    }
  }

  /** The arrays that hold nQ and (n + 1)Q. */
  datatype Four = Four(x: array<felem>, z: array<felem>, px: array<felem>, pz: array<felem>)

  /** One turn of the inner loop: a ladder step for the top bit of a byte, which is shifted out. */
  method LadderTurn(ghost inv: Invariant, byte: u8, nq: Four, nq2: Four, q: array<felem>, ghost read: nat, ghost count: nat)
    returns (rest: u8, ghost more: nat)
    requires Names(inv)
    requires Separate(nq.x, nq.z, nq.px, nq.pz, nq2.x, nq2.z, nq2.px, nq2.pz, q)
    requires inv(nq.x[..], nq.z[..], nq.px[..], nq.pz[..], q[..], read, count)
    modifies nq.x, nq.z, nq.px, nq.pz, nq2.x, nq2.z, nq2.px, nq2.pz
    ensures inv(nq2.x[..], nq2.z[..], nq2.px[..], nq2.pz[..], q[..], more, count + 1)
    ensures 0x100 * more + rest as int == 2 * (0x100 * read + byte as int)
  {
    var bit := TestTopBit(byte);
    LadderBit(inv, bit, nq.x, nq.z, nq.px, nq.pz, nq2.x, nq2.z, nq2.px, nq2.pz, q, read, count);
    more := 2 * read + if bit then 1 else 0;
    rest := ShiftLeft(byte);
  }

  /** The inner loop: eight ladder steps over the bits of one byte, high bit first.  The old and
      the new arrays change places after every step, so after eight they are back. */
  method LadderByte(ghost inv: Invariant, first: u8, a: array<felem>, b: array<felem>, c: array<felem>, d: array<felem>,
      e: array<felem>, f: array<felem>, g: array<felem>, h: array<felem>, q: array<felem>, ghost m: nat, ghost count: nat)
    requires Names(inv)
    requires Separate(a, b, c, d, e, f, g, h, q)
    requires inv(a[..], b[..], c[..], d[..], q[..], m, count)
    modifies a, b, c, d, e, f, g, h
    ensures inv(a[..], b[..], c[..], d[..], q[..], 0x100 * m + first as int, count + 8)
  {
    var nq, nq2 := Four(a, b, c, d), Four(e, f, g, h);
    var byte := first;
    ghost var read: nat, even := m, true;
    var j := 0;
    while j < 8
      invariant 0 <= j <= 8 && even == (j % 2 == 0)
      invariant (nq, nq2) == if even then (Four(a, b, c, d), Four(e, f, g, h)) else (Four(e, f, g, h), Four(a, b, c, d))
      invariant inv(nq.x[..], nq.z[..], nq.px[..], nq.pz[..], q[..], read, count + j)
      invariant 0x100 * read + byte as int == Doubled(0x100 * m + first as int, j)
    {
      byte, read := LadderTurn(inv, byte, nq, nq2, q, read, count + j);
      nq, nq2, even := nq2, nq, !even;
      j := j + 1;
    }
    DoubledEight(0x100 * m + first as int);
  }

  /** a, doubled j times. */
  ghost function Doubled(a: int, j: nat): int {
    if j == 0 then a else 2 * Doubled(a, j - 1)
  }

  lemma DoubledEight(a: int)
    ensures Doubled(a, 8) == 0x100 * a
  {
    assert Doubled(a, 1) == 2 * a;
    assert Doubled(a, 3) == 4 * Doubled(a, 1);
    assert Doubled(a, 5) == 4 * Doubled(a, 3);
    assert Doubled(a, 7) == 4 * Doubled(a, 5);
  }

  /** s is the limb form of 0 or of 1. */
  ghost predicate IsUnit(s: seq<felem>, one: bool) {
    |s| >= 10 && s[0] == (if one then 1 else 0) && forall k :: 1 <= k < 10 ==> s[k] == 0
  }

  lemma {:induction false} UnitValue(s: seq<felem>, one: bool, n: nat)
    requires IsUnit(s, one) && 0 < n <= 10
    ensures Val(s, n) == if one then 1 else 0
  {
    if n == 1 {
      assert Weight(0) == 1 && Val(s, 0) == 0;
    } else {
      UnitValue(s, one, n - 1);
    }
  }

  /** The ladder starts at (1 : 0) and (q : 1). */
  lemma StartOfLadder(x: seq<felem>, z: seq<felem>, px: seq<felem>, pz: seq<felem>, q: seq<felem>)
    requires IsUnit(x, true) && IsUnit(z, false) && IsUnit(pz, true)
    requires |px| >= 10 && |q| >= 10 && forall k :: 0 <= k < 10 ==> px[k] == q[k] && 0 <= q[k] as int < FACTOR_MAX
    ensures OnLadder(x, z, px, pz, q, 0, 0)
  {
    UnitValue(x, true, 10);
    UnitValue(z, false, 10);
    UnitValue(pz, true, 10);
    ValAgree(px, q, 10);
    RemainderUnique(1, 0, 1, P);
    RemainderUnique(0, 0, 0, P);
  }

  /** The outer loop over the bytes of the scalar, from the last to the first. */
  method LadderBytes(ghost inv: Invariant, n: array<u8>, a: array<felem>, b: array<felem>, c: array<felem>, d: array<felem>,
      e: array<felem>, f: array<felem>, g: array<felem>, h: array<felem>, q: array<felem>)
    requires n.Length == 32
    requires Names(inv)
    requires Separate(a, b, c, d, e, f, g, h, q)
    requires inv(a[..], b[..], c[..], d[..], q[..], 0, 0)
    modifies a, b, c, d, e, f, g, h
    ensures inv(a[..], b[..], c[..], d[..], q[..], LittleEndian(n[..]), 256)
  {
    ghost var bytes := n[..];
    assert bytes[32..] == [];
    for i := 0 to 32
      invariant n[..] == bytes
      invariant inv(a[..], b[..], c[..], d[..], q[..], LittleEndian(bytes[32 - i..]), 8 * i)
    {
      assert bytes[31 - i..][1..] == bytes[32 - i..];
      LadderByte(inv, n[31 - i], a, b, c, d, e, f, g, h, q, LittleEndian(bytes[32 - i..]), 8 * i);
    }
    assert bytes[0..] == bytes;
  }

  /** The arrays of the ladder with their initial contents. */
  method LadderArrays(q: array<felem>) returns (nqx: array<felem>, nqz: array<felem>, nqpqx: array<felem>, nqpqz: array<felem>)
    requires q.Length == 10 && forall k :: 0 <= k < 10 ==> 0 <= q[k] as int < FACTOR_MAX
    ensures fresh(nqx) && fresh(nqz) && fresh(nqpqx) && fresh(nqpqz)
    ensures nqx.Length == nqz.Length == nqpqx.Length == nqpqz.Length == 19
    ensures nqx != nqz && nqx != nqpqx && nqx != nqpqz && nqz != nqpqx && nqz != nqpqz && nqpqx != nqpqz
    ensures OnLadder(nqx[..], nqz[..], nqpqx[..], nqpqz[..], q[..], 0, 0)
  {
    nqpqx := new felem[19](_ => 0);
    nqpqz := new felem[19](k => if k == 0 then 1 else 0);
    nqx := new felem[19](k => if k == 0 then 1 else 0);
    nqz := new felem[19](_ => 0);
    Copy(nqpqx, q);
    StartOfLadder(nqx[..], nqz[..], nqpqx[..], nqpqz[..], q[..]);
  }

  /** Calculates nQ, where q is the x-coordinate of Q: the two results are x2 and z2 of the
      reference ladder over all 256 bits of n. */
  method Cmult(resultx: array<felem>, resultz: array<felem>, n: array<u8>, q: array<felem>)
    requires resultx.Length == 10 && resultz.Length == 10 && resultx != resultz
    requires n.Length == 32 && q.Length == 10 && q != resultx && q != resultz
    requires forall k :: 0 <= k < 10 ==> 0 <= q[k] as int < FACTOR_MAX
    modifies resultx, resultz
    ensures Reduced(resultx) && Reduced(resultz)
    ensures Short(resultx) % P == Rfc.Ladder(LittleEndian(n[..]), Short(q), 256).x2
    ensures Short(resultz) % P == Rfc.Ladder(LittleEndian(n[..]), Short(q), 256).z2
  {
    var nqx, nqz, nqpqx, nqpqz := LadderArrays(q);
    var e, f, g, h := new felem[19], new felem[19], new felem[19], new felem[19];
    LadderBytes(OnLadder, n, nqx, nqz, nqpqx, nqpqz, e, f, g, h, q);
    EndOfLadder(nqx[..], nqz[..], nqpqx[..], nqpqz[..], q[..], LittleEndian(n[..]), 256);
    Copy(resultx, nqx);
    Copy(resultz, nqz);
  }

  lemma EndOfLadder(x: seq<felem>, z: seq<felem>, px: seq<felem>, pz: seq<felem>, q: seq<felem>, m: nat, count: nat)
    requires count > 0 && OnLadder(x, z, px, pz, q, m, count)
    ensures ReducedSeq(x) && ReducedSeq(z)
    ensures Val(x, 10) % P == Rfc.Ladder(m, Val(q, 10), count).x2
    ensures Val(z, 10) % P == Rfc.Ladder(m, Val(q, 10), count).z2
  {
  }
}

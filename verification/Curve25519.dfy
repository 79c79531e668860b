/** `curve25519_donna`: from a secret and a base point to a public value. */
module Curve25519 {
  import opened Modular
  import opened Bits
  import opened Limbs
  import opened FieldOps
  import opened Packing
  import opened Montgomery
  import opened Inversion
  import Rfc = Rfc7748
  import Projective

  /** 2^254. */
  const TOP_BIT: int := 0x40000000_00000000_00000000_00000000_00000000_00000000_00000000_00000000

  /** 2^248, the weight of byte 31. */
  const LAST_BYTE: int := 0x01000000_00000000_00000000_00000000_00000000_00000000_00000000_00000000

  /** The scalar of section 5 of RFC 7748: bits 0 to 2 and 255 are cleared and bit 254 is set. */
  ghost function Clamp(n: nat): nat {
    TOP_BIT + 8 * (n % TOP_BIT / 8)
  }

  lemma ClampRange(n: nat)
    ensures TOP_BIT <= Clamp(n) < P + 19 && Clamp(n) % 8 == 0
  {
  }

  // ------------------------------------------------------------------ the masks of the scalar

  /** b & 248. */
  lemma ClearLow(b: u8)
    ensures And(b as nat, 248) == 8 * (b as nat / 8)
  {
    var x := b as nat;
    AndDouble(x, 124);
    AndDouble(x / 2, 62);
    AndDouble(x / 4, 31);
    LowFive(x / 8);
  }

  lemma LowFive(x: nat)
    requires x < 32
    ensures And(x, 31) == x
  {
    assert Pow2(5) == 32;
    AndMask(x, 5);
    RemainderUnique(x, 0, x, 32);
  }

  lemma {:induction false} OrPresent(x: nat, n: nat)
    requires x / Pow2(n) % 2 == 1
    ensures Or(x, Pow2(n)) == x
  {
    if n > 0 {
      DivDiv(x, 2, Pow2(n - 1));
      OrPresent(x / 2, n - 1);
      assert Pow2(n) / 2 == Pow2(n - 1) && Pow2(n) % 2 == 0;
    } else {
      OrZero(x / 2);
      OrSymmetric(x / 2, 0);
    }
  }

  /** Setting the top bit of a number of n + 1 bits. */
  lemma SetTop(y: nat, n: nat)
    requires y < 2 * Pow2(n)
    ensures Or(y, Pow2(n)) == Pow2(n) + y % Pow2(n)
  {
    var m := Pow2(n);
    if y < m {
      QuotientUnique(y, 0, y, m);
      QuotientUnique(m, 1, 0, m);
      OrDisjoint(y, m, n);
    } else {
      QuotientUnique(y, 1, y - m, m);
      OrPresent(y, n);
    }
  }

  lemma SetBit6(y: nat)
    requires y < 0x80
    ensures Or(y, 64) == 64 + y % 64
  {
    SmallPowers();
    SetTop(y, 6);
  }

  /** (b & 127) | 64. */
  lemma SetHigh(b: u8)
    ensures And(b as nat, 127) < 0x80
    ensures Or(And(b as nat, 127), 64) == 64 + b as nat % 64
  {
    var x := b as nat;
    MaskSeven(x);
    SetBit6(x % 0x80);
    QuotientUnique(x, 2 * (x / 0x80) + x % 0x80 / 64, x % 0x80 % 64, 64);
  }

  lemma MaskSeven(x: nat)
    ensures And(x, 127) == x % 0x80
  {
    SmallPowers();
    assert Pow2(7) == 0x80;
    AndMask(x, 7);
  }

  /** The three mask operations on the copy of the secret. */
  method ClampScalar(e: array<u8>)
    requires e.Length == 32
    modifies e
    ensures LittleEndian(e[..]) == Clamp(old(LittleEndian(e[..])))
  {
    ghost var s := e[..];
    ClearLow(e[0]);
    SetHigh(e[31]);
    e[0] := And(e[0] as nat, 248) as u8;
    e[31] := And(e[31] as nat, 127) as u8;
    e[31] := Or(e[31] as nat, 64) as u8;
    assert e[..] == [e[0]] + s[1..31] + [e[31]];
    assert s == [s[0]] + s[1..31] + [s[31]];
    ClampValue(s[0], s[1..31], s[31], e[0], e[31]);
  }

  /** A number from its first byte, its middle and its last byte. */
  lemma ThreeParts(low: u8, middle: seq<u8>, high: u8)
    requires |middle| == 30
    ensures LittleEndian([low] + middle + [high]) == low as int + 0x100 * LittleEndian(middle) + LAST_BYTE * high as int
    ensures 0x100 * LittleEndian(middle) + 0x100 <= LAST_BYTE
  {
    var t := [low] + middle;
    assert (t + [high])[..31] == t;
    LastByte(t + [high]);
    assert t[1..] == middle;
    Pow2Of248();
    LittleEndianBound(middle);
    Pow2Byte(30);
  }

  lemma ClampValue(low: u8, middle: seq<u8>, high: u8, low': u8, high': u8)
    requires |middle| == 30
    requires low' as int == 8 * (low as int / 8) && high' as int == 64 + high as int % 64
    ensures LittleEndian([low'] + middle + [high']) == Clamp(LittleEndian([low] + middle + [high]))
  {
    ThreeParts(low, middle, high);
    ThreeParts(low', middle, high');
    ClampArithmetic(low as int / 8, low as int % 8, LittleEndian(middle), high as int / 64, high as int % 64);
  }

  /** The number with low byte 8a + b and high byte 64h + l, clamped. */
  lemma ClampArithmetic(a: int, b: int, middle: int, h: int, l: int)
    requires 0 <= a < 32 && 0 <= b < 8 && 0 <= h < 4 && 0 <= l < 64
    requires 0 <= middle && 0x100 * middle + 0x100 <= LAST_BYTE
    ensures Clamp(8 * a + b + 0x100 * middle + LAST_BYTE * (64 * h + l)) == 8 * a + 0x100 * middle + LAST_BYTE * (64 + l)
  {
    var n := 8 * a + b + 0x100 * middle + LAST_BYTE * (64 * h + l);
    var r := 8 * a + b + 0x100 * middle + LAST_BYTE * l;
    var q := a + 0x20 * middle + 0x00200000_00000000_00000000_00000000_00000000_00000000_00000000_00000000 * l;
    RemainderUnique(n, h, r, TOP_BIT);
    QuotientUnique(r, q, b, 8);
  }

  // ------------------------------------------------------------------------- the function

  /** What the ladder and the inversion leave is the affine result of the reference. */
  lemma AffineResult(x: int, z: int, inverse: int, product: int, s: Rfc.State, m: int)
    requires m > 1 && x % m == s.x2 && z % m == s.z2
    requires Cong(inverse, Pow(z, m - 2), m) && Cong(product, x * inverse, m)
    ensures product % m == Rfc.AffineMod(s, m)
  {
    CongResidue(x, m);
    CongResidue(z, m);
    CongPow(z % m, z, m - 2, m);
    CongMul(x, x % m, inverse, Pow(z % m, m - 2), m);
  }

  /** A copy of the secret with the masks applied. */
  method ScalarOf(secret: array<u8>) returns (e: array<u8>)
    requires secret.Length == 32
    ensures fresh(e) && e.Length == 32
    ensures LittleEndian(e[..]) == Clamp(LittleEndian(secret[..]))
  {
    e := new u8[32];
    for i := 0 to 32
      invariant e[..i] == secret[..i]
    {
      e[i] := secret[i];
    }
    assert e[..] == secret[..];
    ClampScalar(e);
  }

  /** z := the affine x-coordinate of the multiple of the point bp by the number in e. */
  method Multiple(z: array<felem>, e: array<u8>, bp: array<felem>)
    requires z.Length == 10 && e.Length == 32 && bp.Length == 10 && z != bp
    requires Canonical(bp)
    modifies z
    ensures Reduced(z)
    ensures Short(z) % P == Rfc.Affine(Rfc.Ladder(LittleEndian(e[..]), Short(bp), 256))
  {
    var x, zmone := new felem[10], new felem[10];
    CanonicalIsFactor(bp);
    Cmult(x, z, e, bp);
    ghost var vx, vz := Short(x), Short(z);
    ReducedIsFactor(z);
    Crecip(zmone, z);
    ghost var inverse := Short(zmone);
    ReducedIsFactor(x);
    ReducedIsFactor(zmone);
    Fmul(z, x, zmone);
    AffineResult(vx, vz, inverse, Short(z), Rfc.Ladder(LittleEndian(e[..]), Short(bp), 256), P);
  }

  /** The public value of a secret and a base point: the bytes are the canonical little-endian
      form of the ladder's quotient over the 256 bits of the scalar, which is X25519 of RFC 7748. */
  method Donna(mypublic: array<u8>, secret: array<u8>, basepoint: array<u8>)
    requires mypublic.Length == 32 && secret.Length == 32 && basepoint.Length == 32
    modifies mypublic
    ensures LittleEndian(mypublic[..]) == Rfc.Affine(Rfc.Ladder(Clamp(old(LittleEndian(secret[..]))),
                                                                old(LittleEndian(basepoint[..])) % (P + 19), 256))
    ensures LittleEndian(mypublic[..]) ==
              Rfc.X25519(Clamp(old(LittleEndian(secret[..]))), old(LittleEndian(basepoint[..])) % (P + 19))
  {
    ghost var n, u := LittleEndian(secret[..]), LittleEndian(basepoint[..]) % (P + 19);
    var bp, z := new felem[10], new felem[10];
    var e := ScalarOf(secret);
    Fexpand(bp, basepoint);
    Multiple(z, e, bp);
    ContractReduced(mypublic, z);
    DonnaIsX25519(n, u);
  }

  lemma CanonicalIsFactor(a: array<felem>)
    requires a.Length >= 10 && Canonical(a)
    ensures forall k :: 0 <= k < 10 ==> 0 <= a[k] as int < FACTOR_MAX
  {
    forall k | 0 <= k < 10 ensures 0 <= a[k] as int < FACTOR_MAX {
      assert 0 <= a[k] as int < Radix(k);
    }
  }

  /** On every scalar and every point the program's 256 iterations compute the function X25519 of
      RFC 7748: the iteration that the program has over the reference only scales the result, which
      does not matter because 2^255 - 19 is prime. */
  lemma DonnaIsX25519(n: nat, u: int)
    ensures Rfc.Affine(Rfc.Ladder(Clamp(n), u, 256)) == Rfc.X25519(Clamp(n), u)
  {
    ClampRange(n);
    ClampBits(Clamp(n), 255);
    Projective.LeadingZero(Clamp(n), u, 255);
  }

  lemma ClampBits(k: nat, n: nat)
    requires TOP_BIT <= k < P + 19 && n == 255
    ensures Pow2(n - 1) <= k < Pow2(n)
  {
    Pow2Of255();
    assert Pow2(n) == 2 * Pow2(n - 1);
  }
}

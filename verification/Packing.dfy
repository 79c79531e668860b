/** Conversion between 32-byte strings and limbs: `fexpand` and `fcontract`. */
module Packing {
  import opened Modular
  import opened Bits
  import opened Limbs

  /** The position of the lowest bit of limb i. */
  function BitPos(i: nat): nat {
    51 * (i / 2) + 26 * (i % 2)
  }

  lemma {:induction false} WeightIsPow2(i: nat)
    ensures Weight(i) == Pow2(BitPos(i))
  {
    if i > 0 {
      WeightIsPow2(i - 1);
      RadixIsPow2(i - 1);
      BitPosStep(i - 1);
      Pow2Add(LimbBits(i - 1), BitPos(i - 1));
    }
  }

  lemma BitPosStep(i: nat)
    ensures BitPos(i + 1) == LimbBits(i) + BitPos(i)
  {
  }

  /** 26 for even limbs and 25 for odd ones. */
  function LimbBits(i: nat): nat {
    26 - i % 2
  }

  lemma RadixIsPow2(i: nat)
    ensures Radix(i) == Pow2(LimbBits(i))
  {
    Pow2Bytes();
    assert Pow2(25) == 2 * Pow2(24);
    assert Pow2(26) == 2 * Pow2(25);
  }

  /** Limb i of the number n when every limb is a plain digit. */
  ghost function Digit(n: nat, i: nat): int {
    n / Weight(i) % Radix(i)
  }

  /** The digits make up the number, as far as they reach. */
  lemma {:induction false} DigitsValue(s: seq<felem>, n: nat, m: nat)
    requires m <= |s|
    requires forall i :: 0 <= i < m ==> s[i] as int == Digit(n, i)
    ensures Val(s, m) == n % Weight(m)
  {
    if m > 0 {
      DigitsValue(s, n, m - 1);
      DigitStep(n, Weight(m - 1), Radix(m - 1));
    }
  }

  lemma DigitStep(n: nat, w: int, r: int)
    requires w > 0 && r > 0
    ensures r * w > 0
    ensures n % (r * w) == n % w + w * (n / w % r)
  {
    DivDiv(n, w, r);
    assert w * r == r * w;
  }

  lemma TenDigitsValue(s: seq<felem>, n: nat)
    requires |s| == 10
    requires forall i :: 0 <= i < 10 ==> s[i] as int == Digit(n, i)
    ensures Val(s, 10) == n % (P + 19)
  {
    DigitsValue(s, n, 10);
    WeightTen();
  }

  // -------------------------------------------------------------------------- fexpand

  /** Four bytes or-ed together at their positions. */
  function Word(s: seq<u8>, start: nat): nat
    requires start + 4 <= |s|
  {
    Or(Or(Or(s[start] as nat, s[start + 1] as nat * 0x100), s[start + 2] as nat * 0x10000),
       s[start + 3] as nat * 0x1000000)
  }

  lemma WordValue(s: seq<u8>, start: nat)
    requires start + 4 <= |s|
    ensures Word(s, start) == LittleEndian(s[start..start + 4])
  {
    var t := s[start..start + 4];
    Pow2Bytes();
    OrDisjoint(t[0] as nat, t[1] as nat * 0x100, 8);
    OrDisjoint(t[0] as nat + t[1] as nat * 0x100, t[2] as nat * 0x10000, 16);
    OrDisjoint(t[0] as nat + t[1] as nat * 0x100 + t[2] as nat * 0x10000, t[3] as nat * 0x1000000, 24);
    FourBytes(t);
  }

  lemma Pow2Bytes()
    ensures Pow2(8) == 0x100 && Pow2(16) == 0x10000 && Pow2(24) == 0x1000000
  {
    Pow2Add(8, 8);
    Pow2Add(8, 16);
  }

  lemma FourBytes(t: seq<u8>)
    requires |t| == 4
    ensures LittleEndian(t) == t[0] as nat + 0x100 * t[1] as nat + 0x10000 * t[2] as nat + 0x1000000 * t[3] as nat
  {
    assert t[3..][1..] == [];
    assert LittleEndian(t[3..]) == t[3] as nat + 0x100 * LittleEndian([]);
    assert t[2..][1..] == t[3..] && t[1..][1..] == t[2..];
    assert LittleEndian(t[2..]) == t[2] as nat + 0x100 * LittleEndian(t[3..]);
    assert LittleEndian(t[1..]) == t[1] as nat + 0x100 * LittleEndian(t[2..]);
  }

  /** A window of a number, cut out of 32 bits of it, is the window of the number itself. */
  lemma WindowOfWord(r: nat, shift: nat, bits: nat)
    requires shift + bits <= 32
    ensures r % Pow2(32) >= 0
    ensures Shift(r % Pow2(32), shift) % Pow2(bits) == Shift(r, shift) % Pow2(bits)
  {
    var m, n, b := Pow2(shift), Pow2(32 - shift), Pow2(bits);
    Pow2Add(shift, 32 - shift);
    DivDiv(r, m, n);
    QuotientUnique(r % (m * n), r / m % n, r % m, m);
    Pow2Add(bits, 32 - shift - bits);
    DivDiv(r / m, b, Pow2(32 - shift - bits));
    QuotientUnique(r / m % n, r / m / b % Pow2(32 - shift - bits), r / m % b, b);
  }

  /** The bytes from `start` on, with 8 * start + shift as the lowest bit, hold the number's own digit. */
  lemma WindowOfBytes(s: seq<u8>, start: nat, shift: nat, bits: nat)
    requires start + 4 <= |s| && shift + bits <= 32
    ensures And(Shift(Word(s, start), shift), Pow2(bits) - 1) == Shift(LittleEndian(s), 8 * start + shift) % Pow2(bits)
  {
    var n, rest := LittleEndian(s), LittleEndian(s[start..]);
    AndMask(Shift(Word(s, start), shift), bits);
    DropBytes(s, start);
    DropBytes(s[start..], 4);
    assert s[start..][..4] == s[start..start + 4];
    WordValue(s, start);
    WindowOfWord(rest, shift, bits);
    Pow2Add(8 * start, shift);
    DivDiv(n, Pow2(8 * start), Pow2(shift));
  }

  lemma DropBytes(s: seq<u8>, start: nat)
    requires start <= |s|
    ensures LittleEndian(s) / Pow2(8 * start) == LittleEndian(s[start..])
    ensures LittleEndian(s) % Pow2(8 * start) == LittleEndian(s[..start])
  {
    assert s == s[..start] + s[start..];
    LittleEndianConcat(s[..start], s[start..]);
    LittleEndianBound(s[..start]);
    SplitNumber(LittleEndian(s), LittleEndian(s[..start]), LittleEndian(s[start..]), Pow2(8 * start));
  }

  lemma SplitNumber(n: int, low: int, high: int, w: int)
    requires 0 <= low < w && n == low + w * high
    ensures n / w == high && n % w == low
  {
    assert w * high == high * w;
    QuotientUnique(n, high, low, w);
  }

  /** The limb k that the macro F(k, start, shift, mask) extracts. */
  method ExpandLimb(input: seq<u8>, start: nat, shift: nat, mask: nat, ghost k: nat) returns (x: felem)
    requires start + 4 <= |input|
    requires 8 * start + shift == BitPos(k) && mask + 1 == Radix(k) && shift + LimbBits(k) <= 32
    ensures x as int == Digit(LittleEndian(input), k)
    ensures 0 <= x as int < Radix(k)
  {
    RadixIsPow2(k);
    WeightIsPow2(k);
    WindowOfBytes(input, start, shift, LimbBits(k));
    x := And(Shift(Word(input, start), shift), mask) as felem;
  }

  /** The ten limbs of the number that a 32-byte string stands for. */
  method ExpandDigits(input: seq<u8>) returns (t: seq<felem>)
    requires |input| == 32
    ensures |t| == 10
    ensures forall k :: 0 <= k < 10 ==> t[k] as int == Digit(LittleEndian(input), k) && 0 <= t[k] as int < Radix(k)
  {
    var x0 := ExpandLimb(input, 0, 0, 0x3ffffff, 0);
    var x1 := ExpandLimb(input, 3, 2, 0x1ffffff, 1);
    var x2 := ExpandLimb(input, 6, 3, 0x3ffffff, 2);
    var x3 := ExpandLimb(input, 9, 5, 0x1ffffff, 3);
    var x4 := ExpandLimb(input, 12, 6, 0x3ffffff, 4);
    var x5 := ExpandLimb(input, 16, 0, 0x1ffffff, 5);
    var x6 := ExpandLimb(input, 19, 1, 0x3ffffff, 6);
    var x7 := ExpandLimb(input, 22, 3, 0x1ffffff, 7);
    var x8 := ExpandLimb(input, 25, 4, 0x3ffffff, 8);
    var x9 := ExpandLimb(input, 28, 6, 0x1ffffff, 9);
    t := [x0, x1, x2, x3, x4, x5, x6, x7, x8, x9];
  }

  /** Every limb k lies in [0, Radix(k)), as in a plain positional number. */
  ghost predicate Canonical(a: array<felem>)
    requires a.Length >= 10
    reads a
  {
    forall k :: 0 <= k < 10 ==> 0 <= a[k] as int < Radix(k)
  }

  /** Take a little-endian, 32-byte number and expand it into polynomial form: bit 255 is dropped. */
  method Fexpand(output: array<felem>, input: array<u8>)
    requires output.Length == 10 && input.Length == 32
    modifies output
    ensures Canonical(output)
    ensures Short(output) == LittleEndian(input[..]) % (P + 19)
  {
    var t := ExpandDigits(input[..]);
    TenDigitsValue(t, LittleEndian(input[..]));
    Store(output, t);
  }

  // ------------------------------------------------------------------------ fcontract

  /** Borrow from limb i + 1 while limb i is negative. */
  method BorrowLimb(input: array<felem>, i: nat) returns (ghost borrow: int)
    requires input.Length >= 10 && i < 9
    requires -Radix(i) <= input[i] as int < Radix(i) && input[i + 1] as int >= -LIMB_MAX * 2
    modifies input
    ensures borrow == if old(input[i]) < 0 then 1 else 0
    ensures input[i] as int == old(input[i] as int) + Radix(i) * borrow
    ensures input[i + 1] as int == old(input[i + 1] as int) - borrow
    ensures forall k :: 0 <= k < input.Length && k != i && k != i + 1 ==> input[k] == old(input[k])
    ensures Val(input[..], 10) == old(Val(input[..], 10))
  {
    ghost var s := input[..];
    borrow := 0;
    while input[i] < 0
      invariant 0 <= borrow <= 1 && (borrow == 1 ==> s[i] < 0 && input[i] >= 0)
      invariant input[i] as int == s[i] as int + Radix(i) * borrow
      invariant input[i + 1] as int == s[i + 1] as int - borrow
      invariant forall k :: 0 <= k < input.Length && k != i && k != i + 1 ==> input[k] == s[k]
      decreases 1 - borrow
    {
      if i % 2 == 1 {
        input[i] := input[i] + 0x2000000;
      } else {
        input[i] := input[i] + 0x4000000;
      }
      input[i + 1] := input[i + 1] - 1;
      borrow := borrow + 1;
    }
    assert input[..] == s[i := input[i]][i + 1 := input[i + 1]];
    ValCarry(s, i, input[i], input[i + 1], -borrow, 10);
  }

  /** Borrow from the multiples of p while limb 9 is negative: 2^25 more in limb 9 is 2^255. */
  method BorrowPrime(input: array<felem>) returns (ghost borrow: int)
    requires input.Length >= 10
    requires -LIMB_MAX <= input[9] as int < LIMB_MAX && input[0] >= 0
    modifies input
    ensures borrow == if old(input[9]) < 0 then 1 else 0
    ensures input[9] as int == old(input[9] as int) + LIMB_MAX * borrow
    ensures input[0] as int == old(input[0] as int) - 19 * borrow
    ensures forall k :: 0 < k < input.Length && k != 9 ==> input[k] == old(input[k])
    ensures Val(input[..], 10) == old(Val(input[..], 10)) + borrow * P
  {
    ghost var s := input[..];
    borrow := 0;
    while input[9] < 0
      invariant 0 <= borrow <= 1 && (borrow == 1 ==> s[9] < 0 && input[9] >= 0)
      invariant input[9] as int == s[9] as int + LIMB_MAX * borrow
      invariant input[0] as int == s[0] as int - 19 * borrow
      invariant forall k :: 0 < k < input.Length && k != 9 ==> input[k] == s[k]
      decreases 1 - borrow
    {
      input[9] := input[9] + 0x2000000;
      input[0] := input[0] - 19;
      borrow := borrow + 1;
    }
    assert input[..] == s[9 := input[9]][0 := input[0]];
    BorrowPrimeValue(s, input[9], input[0], borrow);
  }

  lemma BorrowPrimeValue(s: seq<felem>, x: felem, y: felem, borrow: int)
    requires |s| >= 10 && 0 <= borrow <= 1
    requires x as int == s[9] as int + LIMB_MAX * borrow && y as int == s[0] as int - 19 * borrow
    ensures Val(s[9 := x][0 := y], 10) == Val(s, 10) + borrow * P
  {
    ValUpdate(s, 9, x, 10);
    ValUpdate(s[9 := x], 0, y, 10);
    WeightTen();
    assert Weight(10) == LIMB_MAX * Weight(9);
    assert Weight(0) == 1;
  }

  /** Every limb k lies in (-Radix(k), Radix(k)), so one borrow and one more make it a digit. */
  ghost predicate Signed(s: seq<felem>)
    requires |s| >= 10
  {
    forall k :: 0 <= k < 10 ==> -Radix(k) < s[k] as int < Radix(k)
  }

  /** The body of the do-while loop. */
  method BorrowPass(input: array<felem>)
    requires input.Length >= 10
    requires Signed(input[..])
    modifies input
    ensures forall k :: 1 <= k < 10 ==> 0 <= input[k] as int < Radix(k)
    ensures -19 <= input[0] as int < Radix(0)
    ensures -19 <= old(input[0]) < 0 ==> input[0] >= 0
    ensures Short(input) == old(Short(input)) + if old(Short(input)) < 0 then P else 0
  {
    ghost var s := input[..];
    var i := 0;
    while i < 9
      invariant 0 <= i <= 9
      invariant forall k :: 0 <= k < i ==> 0 <= input[k] as int < Radix(k)
      invariant s[i] as int - 1 <= input[i] as int <= s[i] as int
      invariant i == 0 ==> input[0] == s[0]
      invariant i > 0 ==> input[0] as int == s[0] as int + if s[0] < 0 then Radix(0) else 0
      invariant forall k :: i < k < input.Length ==> input[k] == s[k]
      invariant Val(input[..], 10) == Val(s, 10)
    {
      ghost var borrow := BorrowLimb(input, i);
      i := i + 1;
    }
    SignOfTopLimb(input[..]);
    ghost var borrow := BorrowPrime(input);
  }

  /** When the limbs below are digits, limb 9 has the sign of the whole number. */
  lemma SignOfTopLimb(s: seq<felem>)
    requires |s| >= 10 && forall k :: 0 <= k < 9 ==> 0 <= s[k] as int < Radix(k)
    ensures s[9] < 0 <==> Val(s, 10) < 0
  {
    CanonicalBound(s, 9);
    SignOfSum(Val(s, 9), Weight(9), s[9] as int);
  }

  lemma SignOfSum(low: int, w: int, x: int)
    requires 0 <= low < w
    ensures x < 0 <==> low + w * x < 0
  {
    assert x <= -1 ==> w * x <= -w;
    assert x >= 0 ==> w * x >= 0;
  }

  /** The do-while loop, which makes at most two passes: a negative number gets p added,
      and no other number changes. */
  method Normalize(input: array<felem>)
    requires input.Length >= 10
    requires Signed(input[..]) && Short(input) >= -P
    modifies input
    ensures Canonical(input)
    ensures Short(input) == old(Short(input)) + if old(Short(input)) < 0 then P else 0
  {
    BorrowPass(input);
    ghost var passes := 1;
    while input[0] < 0
      invariant 1 <= passes <= 2
      invariant passes == 2 ==> input[0] >= 0
      invariant forall k :: 1 <= k < 10 ==> 0 <= input[k] as int < Radix(k)
      invariant -19 <= input[0] as int < Radix(0)
      invariant Short(input) == old(Short(input)) + if old(Short(input)) < 0 then P else 0
      decreases 2 - passes
    {
      BorrowPass(input);
      passes := passes + 1;
    }
  }

  /** The limbs, each moved up by the bit offset of its first byte. */
  method ShiftLimbs(input: array<felem>)
    requires input.Length == 10 && Canonical(input)
    modifies input
    ensures forall k :: 0 <= k < 10 ==> input[k] as int == old(input[k] as int) * OFFSETS[k]
  {
    input[1] := input[1] * 4;
    input[2] := input[2] * 8;
    input[3] := input[3] * 32;
    input[4] := input[4] * 64;
    input[6] := input[6] * 2;
    input[7] := input[7] * 8;
    input[8] := input[8] * 16;
    input[9] := input[9] * 64;
  }

  /** Canonical limbs below limb m stand for a number below the weight of limb m. */
  lemma {:induction false} CanonicalBound(s: seq<felem>, m: nat)
    requires m <= |s| && forall k :: 0 <= k < m ==> 0 <= s[k] as int < Radix(k)
    ensures 0 <= Val(s, m) < Weight(m)
  {
    if m > 0 {
      CanonicalBound(s, m - 1);
      RemainderFits(s[m - 1] as int, Val(s, m - 1), Weight(m - 1), Radix(m - 1));
      assert Weight(m - 1) * Radix(m - 1) == Radix(m - 1) * Weight(m - 1);
    }
  }

  lemma LastByte(t: seq<u8>)
    requires |t| > 0
    ensures LittleEndian(t) == LittleEndian(t[..|t| - 1]) + Pow2(8 * (|t| - 1)) * t[|t| - 1] as int
  {
    var n := |t| - 1;
    assert t == t[..n] + [t[n]];
    LittleEndianConcat(t[..n], [t[n]]);
    assert LittleEndian([t[n]]) == t[n] as nat + 0x100 * LittleEndian([]) by { assert [t[n]][1..] == []; }
  }

  /** The top byte of a number below 2^(8s + shift) uses its low bits only. */
  lemma TopByte(t: seq<u8>, s: nat, shift: nat)
    requires |t| == s + 1 && LittleEndian(t) < Pow2(8 * s + shift)
    ensures t[s] as int < Pow2(shift)
  {
    LastByte(t);
    Pow2Add(8 * s, shift);
    if t[s] as int >= Pow2(shift) {
      MulMono(Pow2(8 * s), Pow2(shift), t[s] as int);
      assert false;
    }
  }

  lemma MulMono(w: int, a: int, b: int)
    requires w > 0 && a <= b
    ensures w * a <= w * b
  {
  }

  /** (v >> n) & 0xff is byte n / 8 of v. */
  lemma ByteOfWord(v: nat, n: nat, w: int)
    requires w == Pow2(n)
    ensures And(Shift(v, n), 0xff) == v / w % 0x100
  {
    AndMask(Shift(v, n), 8);
    assert Pow2(8) == 0x100;
  }

  /** The four bytes that the macro F stores, least significant first. */
  lemma BytesOfWord(v: nat)
    requires v < 0x1_0000_0000
    ensures And(v, 0xff) == v % 0x100 && And(Shift(v, 8), 0xff) == v / 0x100 % 0x100
    ensures And(Shift(v, 16), 0xff) == v / 0x10000 % 0x100 && And(Shift(v, 24), 0xff) == v / 0x1000000 % 0x100
  {
    Pow2Bytes();
    ByteOfWord(v, 0, 1);
    assert Shift(v, 0) == v;
    ByteOfWord(v, 8, 0x100);
    ByteOfWord(v, 16, 0x10000);
    ByteOfWord(v, 24, 0x1000000);
  }

  /** A multiple of 2^shift has a low byte that is one too. */
  lemma LowByteAligned(v: nat, x: nat, shift: nat)
    requires shift <= 8 && v == x * Pow2(shift)
    ensures v % 0x100 % Pow2(shift) == 0
  {
    Pow2Bytes();
    Pow2Add(shift, 8 - shift);
    DivDiv(v, Pow2(shift), Pow2(8 - shift));
    QuotientUnique(v, x, 0, Pow2(shift));
    QuotientUnique(v % 0x100, v / Pow2(shift) % Pow2(8 - shift), 0, Pow2(shift));
  }

  /** The macro F(i, s): or the low byte of v into byte s and store the other three. */
  method PackWord(output: array<u8>, v: felem, s: nat, ghost shift: nat, ghost x: nat)
    requires output.Length == 32 && s + 4 <= 32 && shift <= 8
    requires 0 <= v as int < 0x1_0000_0000 && v as int == x * Pow2(shift)
    requires output[s] as int < Pow2(shift)
    modifies output
    ensures forall k :: 0 <= k < s || s + 4 <= k < 32 ==> output[k] == old(output[k])
    ensures LittleEndian(output[s..s + 4]) == old(output[s]) as int + v as int
  {
    var w := v as nat;
    BytesOfWord(w);
    LowByteAligned(w, x, shift);
    OrDisjoint(output[s] as nat, And(w, 0xff), shift);
    LowByteFits(output[s] as nat, w, shift);
    output[s] := Or(output[s] as nat, And(w, 0xff)) as u8;
    output[s + 1] := And(Shift(w, 8), 0xff) as u8;
    output[s + 2] := And(Shift(w, 16), 0xff) as u8;
    output[s + 3] := And(Shift(w, 24), 0xff) as u8;
    FourBytes(output[s..s + 4]);
    WordBytes(w);
  }

  lemma WordBytes(w: nat)
    requires w < 0x1_0000_0000
    ensures w == w % 0x100 + 0x100 * (w / 0x100 % 0x100) + 0x10000 * (w / 0x10000 % 0x100) + 0x1000000 * (w / 0x1000000 % 0x100)
  {
  }

  lemma MultipleFits(a: nat, b: nat, m: nat, n: nat)
    requires a < m && b % m == 0 && b < m * n
    ensures a + b < m * n
  {
    var q := b / m;
    assert b == q * m;
    assert n <= q ==> m * n <= m * q by {
      if n <= q {
        MulMono(m, n, q);
      }
    }
    RemainderFits(q, a, m, n);
  }

  /** Bits below `shift` and a byte that is a multiple of 2^shift fit in one byte. */
  lemma LowByteFits(a: nat, w: nat, shift: nat)
    requires shift <= 8 && a < Pow2(shift) && w % 0x100 % Pow2(shift) == 0
    ensures a + w % 0x100 < 0x100
  {
    Pow2Bytes();
    Pow2Add(shift, 8 - shift);
    MultipleFits(a, w % 0x100, Pow2(shift), Pow2(8 - shift));
  }

  /** Packs limb i at its place: the bytes so far stood for the limbs below i. */
  method PackLimb(output: array<u8>, v: felem, s: nat, ghost shift: nat, ghost limbs: seq<felem>, ghost i: nat)
    requires output.Length == 32 && s + 4 <= 32 && shift <= 6
    requires i < 10 == |limbs| && BitPos(i) == 8 * s + shift
    requires forall k :: 0 <= k < 10 ==> 0 <= limbs[k] as int < Radix(k)
    requires v as int == limbs[i] as int * Pow2(shift) && 0 <= v as int < 0x1_0000_0000
    requires LittleEndian(output[..s + 1]) == Val(limbs, i)
    modifies output
    ensures forall k :: s + 4 <= k < 32 ==> output[k] == old(output[k])
    ensures LittleEndian(output[..s + 4]) == Val(limbs, i + 1)
  {
    ghost var t := output[..s + 1];
    RoomForLimb(t, limbs, i, s, shift);
    WeightIsPow2(i);
    PackWord(output, v, s, shift, limbs[i] as nat);
    assert output[..s + 4] == t[..s] + output[s..s + 4];
    PackedPrefix(t, output[s..s + 4], v as int, limbs[i] as int, shift);
  }

  /** The limbs below i leave the bits from `shift` on of their last byte free. */
  lemma RoomForLimb(t: seq<u8>, limbs: seq<felem>, i: nat, s: nat, shift: nat)
    requires i <= |limbs| && forall k :: 0 <= k < i ==> 0 <= limbs[k] as int < Radix(k)
    requires |t| == s + 1 && BitPos(i) == 8 * s + shift
    requires LittleEndian(t) == Val(limbs, i)
    ensures t[s] as int < Pow2(shift)
  {
    CanonicalBound(limbs, i);
    WeightIsPow2(i);
    TopByte(t, s, shift);
  }

  /** Storing v over the last byte of t and three more adds v at that byte's weight. */
  lemma PackedPrefix(t: seq<u8>, word: seq<u8>, v: int, x: int, shift: nat)
    requires |t| > 0 && |word| == 4
    requires v == x * Pow2(shift)
    requires LittleEndian(word) == t[|t| - 1] as int + v
    ensures LittleEndian(t[..|t| - 1] + word) == LittleEndian(t) + Pow2(8 * (|t| - 1) + shift) * x
  {
    var s := |t| - 1;
    LittleEndianConcat(t[..s], word);
    LastByte(t);
    PackValue(LittleEndian(t[..s]), t[s] as int, v, x, s, shift);
  }

  lemma PackValue(low: int, top: int, v: int, x: int, s: nat, shift: nat)
    requires v == x * Pow2(shift)
    ensures low + Pow2(8 * s) * (top + v) == low + Pow2(8 * s) * top + Pow2(8 * s + shift) * x
  {
    Pow2Add(8 * s, shift);
    var w, m := Pow2(8 * s), Pow2(shift);
    assert w * (top + x * m) == w * top + w * (x * m);
    assert w * (x * m) == (w * m) * x;
  }

  /** v holds the limbs, each scaled by the bit offset at which it is packed. */
  ghost predicate Scaled(v: seq<felem>, limbs: seq<felem>) {
    && |v| == |limbs| == 10
    && forall k :: 0 <= k < 10 ==> 0 <= limbs[k] as int < Radix(k) && v[k] as int == limbs[k] as int * OFFSETS[k]
  }

  const OFFSETS: seq<int> := [1, 4, 8, 32, 64, 1, 2, 8, 16, 64]

  lemma SmallPowers()
    ensures Pow2(0) == 1 && Pow2(1) == 2 && Pow2(2) == 4 && Pow2(3) == 8
    ensures Pow2(4) == 16 && Pow2(5) == 32 && Pow2(6) == 64
  {
  }

  /** Limbs 0 to 4 fill bytes 0 to 15. */
  method PackLow(output: array<u8>, v: seq<felem>, ghost limbs: seq<felem>)
    requires output.Length == 32 && Scaled(v, limbs)
    requires output[0] == 0
    modifies output
    ensures output[16] == old(output[16])
    ensures LittleEndian(output[..16]) == Val(limbs, 5)
  {
    SmallPowers();
    LastByte(output[..1]);
    PackLimb(output, v[0], 0, 0, limbs, 0);
    PackLimb(output, v[1], 3, 2, limbs, 1);
    PackLimb(output, v[2], 6, 3, limbs, 2);
    PackLimb(output, v[3], 9, 5, limbs, 3);
    PackLimb(output, v[4], 12, 6, limbs, 4);
  }

  /** Limbs 5 to 9 fill bytes 16 to 31. */
  method PackHigh(output: array<u8>, v: seq<felem>, ghost limbs: seq<felem>)
    requires output.Length == 32 && Scaled(v, limbs)
    requires output[16] == 0 && LittleEndian(output[..16]) == Val(limbs, 5)
    modifies output
    ensures LittleEndian(output[..32]) == Val(limbs, 10)
  {
    SmallPowers();
    LastByte(output[..17]);
    assert output[..17][..16] == output[..16];
    PackLimb(output, v[5], 16, 0, limbs, 5);
    PackLimb(output, v[6], 19, 1, limbs, 6);
    PackLimb(output, v[7], 22, 3, limbs, 7);
    PackLimb(output, v[8], 25, 4, limbs, 8);
    PackLimb(output, v[9], 28, 6, limbs, 9);
  }

  /** The packing part of `fcontract`. */
  method Pack(output: array<u8>, v: seq<felem>, ghost limbs: seq<felem>)
    requires output.Length == 32 && Scaled(v, limbs)
    modifies output
    ensures LittleEndian(output[..32]) == Val(limbs, 10)
  {
    output[0] := 0;
    output[16] := 0;
    PackLow(output, v, limbs);
    PackHigh(output, v, limbs);
  }

  /** Contract a number into a little-endian 32-byte string: a negative number gets p added. */
  method Fcontract(output: array<u8>, input: array<felem>)
    requires output.Length == 32 && input.Length == 10
    requires Signed(input[..]) && Short(input) >= -P
    modifies output, input
    ensures LittleEndian(output[..]) == old(Short(input)) + if old(Short(input)) < 0 then P else 0
    ensures LittleEndian(output[..]) < P + 19
  {
    Normalize(input);
    ghost var limbs := input[..];
    ShiftLimbs(input);
    Pack(output, input[..], limbs);
    TenLimbsBound(limbs);
    assert output[..32] == output[..];
  }

  lemma TenLimbsBound(s: seq<felem>)
    requires |s| == 10 && forall k :: 0 <= k < 10 ==> 0 <= s[k] as int < Radix(k)
    ensures 0 <= Val(s, 10) < P + 19
  {
    CanonicalBound(s, 10);
    WeightTen();
  }

  /** Reduced limbs stand for a number between -p and p. */
  lemma ReducedBound(s: seq<felem>)
    requires |s| >= 10 && forall k :: 0 <= k < 10 ==> ReducedLimb(s[k], k)
    ensures Signed(s)
    ensures -P < Val(s, 10) < P
  {
    forall k | 0 <= k < 10 ensures -Radix(k) < s[k] as int < Radix(k) {
      assert ReducedLimb(s[k], k);
    }
    ReducedPrefix(s, 9);
    assert ReducedLimb(s[9], 9);
    MulMono(Weight(9), -LIMB_MAX + 1, s[9] as int);
    MulMono(Weight(9), s[9] as int, LIMB_MAX - 1);
    WeightTen();
    assert Weight(10) == LIMB_MAX * Weight(9);
  }

  lemma {:induction false} ReducedPrefix(s: seq<felem>, n: nat)
    requires n <= |s| && forall k :: 0 <= k < n ==> ReducedLimb(s[k], k)
    ensures -Weight(n) <= Val(s, n) <= Weight(n)
    ensures n % 2 == 1 ==> -3 * Weight(n) <= 4 * Val(s, n) <= 3 * Weight(n)
  {
    if n > 0 {
      ReducedPrefix(s, n - 1);
      assert ReducedLimb(s[n - 1], n - 1);
      var w, x, bound := Weight(n - 1), s[n - 1] as int, if n % 2 == 1 then LIMB_MAX else LIMB_MAX - 1;
      MulMono(w, x, bound);
      MulMono(w, -bound, x);
      assert w * bound == bound * w && w * (-bound) == -(bound * w);
    }
  }

  /** Contracting a reduced number gives its canonical residue. */
  method ContractReduced(output: array<u8>, input: array<felem>)
    requires output.Length == 32 && input.Length == 10 && Reduced(input)
    modifies output, input
    ensures LittleEndian(output[..]) == old(Short(input)) % P
  {
    ReducedBound(input[..]);
    ghost var v := Short(input);
    RemainderUnique(v, if v < 0 then -1 else 0, v + if v < 0 then P else 0, P);
    Fcontract(output, input);
  }

  /** Expanding a 32-byte string and contracting it again clears bit 255 and changes nothing else. */
  method RoundTrip(input: array<u8>) returns (output: array<u8>)
    requires input.Length == 32
    ensures output.Length == 32
    ensures LittleEndian(output[..]) == LittleEndian(input[..]) % (P + 19)
    ensures input[31] < 0x80 ==> output[..] == input[..]
  {
    var t := new felem[10];
    output := new u8[32];
    Fexpand(t, input);
    Fcontract(output, t);
    if input[31] < 0x80 {
      BelowBit255(input[..]);
      LittleEndianInjective(output[..], input[..]);
    }
  }

  lemma BelowBit255(s: seq<u8>)
    requires |s| == 32 && s[31] < 0x80
    ensures LittleEndian(s) % (P + 19) == LittleEndian(s)
  {
    LastByte(s);
    LittleEndianBound(s[..31]);
    Pow2Of248();
    RemainderUnique(LittleEndian(s), 0, LittleEndian(s), P + 19);
  }

  lemma Pow2Of248()
    ensures 0x80 * Pow2(248) == P + 19
  {
    WeightTen();
    WeightIsPow2(10);
    Pow2Add(7, 248);
    assert Pow2(7) == 0x80;
  }
}

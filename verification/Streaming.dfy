/** The buffering of `md5_append` and the padding of `md5_finish`: whatever the pieces in which a
    message arrives, the state is a function of the message. */
module Streaming {
  import opened Modular
  import opened Bits
  import opened Words
  import opened Md5

  /** The largest `int`.  Beyond it the sum of an offset and a length is not defined. */
  const INT_MAX := 0x7fff_ffff

  newtype u32 = x: int | 0 <= x < 0x1_0000_0000

  // -------------------------------------------------------------------------- the counter

  /** The two words hold the length in bits of n bytes, modulo 2^64. */
  ghost predicate Counts(low: u32, high: u32, n: nat) {
    low as int == 8 * n % 0x1_0000_0000 && high as int == 8 * n / 0x1_0000_0000 % 0x1_0000_0000
  }

  function Wrap(x: int): u32 {
    (x % 0x1_0000_0000) as u32
  }

  /** The update of the message length, with the carry between the words. */
  method AddLength(low: u32, high: u32, nbytes: nat, ghost n: nat) returns (low': u32, high': u32)
    requires Counts(low, high, n) && nbytes < 0x8000_0000
    ensures Counts(low', high', n + nbytes)
  {
    var nbits := Wrap(8 * nbytes);
    high' := Wrap(high as int + nbytes / 0x2000_0000);
    low' := Wrap(low as int + nbits as int);
    LowSum(low as int, nbits as int, low' as int);
    if low' < nbits {
      WrapTwice(high as int + nbytes / 0x2000_0000, 1);
      high' := Wrap(high' as int + 1);
      LengthSum(n, nbytes, low as int, nbits as int, low' as int, 1);
    } else {
      LengthSum(n, nbytes, low as int, nbits as int, low' as int, 0);
    }
  }

  /** An unsigned sum wrapped around exactly when it came out below a summand. */
  lemma LowSum(x: int, y: int, z: int)
    requires 0 <= x < 0x1_0000_0000 && 0 <= y < 0x1_0000_0000 && z == (x + y) % 0x1_0000_0000
    ensures x + y == z + if z < y then 0x1_0000_0000 else 0
  {
  }

  lemma WrapTwice(x: int, y: int)
    ensures (x % 0x1_0000_0000 + y) % 0x1_0000_0000 == (x + y) % 0x1_0000_0000
  {
    CongResidue(x, 0x1_0000_0000);
    CongAdd(x % 0x1_0000_0000, x, y, y, 0x1_0000_0000);
  }

  lemma LengthSum(n: nat, k: nat, low: int, nbits: int, low': int, carry: int)
    requires low == 8 * n % 0x1_0000_0000 && nbits == 8 * k % 0x1_0000_0000
    requires 0 <= low' < 0x1_0000_0000 && low + nbits == low' + carry * 0x1_0000_0000
    ensures 8 * (n + k) % 0x1_0000_0000 == low'
    ensures 8 * (n + k) / 0x1_0000_0000 % 0x1_0000_0000
         == (8 * n / 0x1_0000_0000 % 0x1_0000_0000 + k / 0x2000_0000 + carry) % 0x1_0000_0000
  {
    var q, c := 8 * n / 0x1_0000_0000, 8 * k / 0x1_0000_0000;
    EighthOfWord(k);
    assert 8 * (n + k) == (q + c + carry) * 0x1_0000_0000 + low';
    QuotientUnique(8 * (n + k), q + c + carry, low', 0x1_0000_0000);
    WrapTwice(q, c + carry);
  }

  lemma EighthOfWord(k: nat)
    ensures 8 * k / 0x1_0000_0000 == k / 0x2000_0000
  {
    QuotientUnique(8 * k, k / 0x2000_0000, 8 * (k % 0x2000_0000), 0x1_0000_0000);
  }

  /** The offset in the buffer, from the low word alone. */
  lemma OffsetIs(low: u32, high: u32, n: nat)
    requires Counts(low, high, n)
    ensures low as int / 8 % 64 == n % 64
  {
    var q, d := 8 * n / 0x1_0000_0000, n / 64;
    QuotientUnique(low as int, n - q * 0x2000_0000, 0, 8);
    RemainderUnique(n - q * 0x2000_0000, d - q * 0x80_0000, n % 64, 64);
  }

  // --------------------------------------------------------------------------- the blocks

  /** The registers after all the blocks of m. */
  ghost function Blocks<B, R>(process: (R, seq<B>) -> R, start: R, m: seq<B>): R
    requires |m| % 64 == 0
    decreases |m|
  {
    if m == [] then start
    else process(Blocks(process, start, m[..|m| - 64]), m[|m| - 64..])
  }

  // -------------------------------------------------------------------------- the padding

  /** Section 3.1 of RFC 1321: zero bytes until the length is 56 modulo 64. */
  ghost function ZerosTo56<B>(zero: B, m: seq<B>): (p: seq<B>)
    ensures |p| % 64 == 56
    decreases (56 - |m|) % 64
  {
    if |m| % 64 == 56 then m else ZeroStep(|m|); ZerosTo56(zero, m + [zero])
  }

  lemma ZeroStep(n: nat)
    requires n % 64 != 56
    ensures (56 - n) % 64 > 0 && (56 - (n + 1)) % 64 == (56 - n) % 64 - 1
  {
    var d := (56 - n) % 64;
    if d == 0 {
      RemainderUnique(n, -((56 - n) / 64), 56, 64);
    }
    RemainderUnique(56 - (n + 1), (56 - n) / 64, d - 1, 64);
  }

  /** The low k bytes of n, least significant first. */
  ghost function NatBytes<B>(toByte: nat -> B, n: nat, k: nat): (b: seq<B>)
    ensures |b| == k
    decreases k, n
  {
    if k == 0 then [] else [toByte(n % 0x100)] + NatBytes(toByte, n / 0x100, k - 1)
  }

  /** Sections 3.1 and 3.2: a one bit, zero bits, and the low 64 bits of the length in bits. */
  ghost function Padded<B>(toByte: nat -> B, m: seq<B>): (p: seq<B>)
    ensures |p| % 64 == 0
  {
    var z := ZerosTo56(toByte(0), m + [toByte(0x80)]);
    RemainderUnique(|z| + 8, |z| / 64 + 1, 0, 64);
    z + NatBytes(toByte, 8 * |m|, 8)
  }

  /** k zero bytes. */
  ghost function Zeros<B>(zero: B, k: nat): (z: seq<B>)
    ensures |z| == k && forall i :: 0 <= i < k ==> z[i] == zero
  {
    seq(k, _ => zero)
  }

  lemma {:induction false} ZerosTo56Is<B>(zero: B, m: seq<B>)
    ensures ZerosTo56(zero, m) == m + Zeros(zero, (56 - |m|) % 64)
    decreases (56 - |m|) % 64
  {
    if |m| % 64 == 56 {
      RemainderUnique(56 - |m|, -(|m| / 64), 0, 64);
      assert m + Zeros(zero, 0) == m;
    } else {
      ZeroStep(|m|);
      ZerosTo56Is(zero, m + [zero]);
      assert m + [zero] + Zeros(zero, (56 - |m|) % 64 - 1) == m + Zeros(zero, (56 - |m|) % 64);
    }
  }

  /** The length of the padding that `md5_finish` computes, in unsigned arithmetic, from the low word. */
  lemma PadLength(low: u32, high: u32, n: nat)
    requires Counts(low, high, n)
    ensures (55 - low as int / 8) % 0x1_0000_0000 % 64 == (56 - (n + 1)) % 64
  {
    OffsetIs(low, high, n);
    var x := 55 - low as int / 8;
    CongResidue(x, 0x1_0000_0000);
    var k := CongQuotient(x % 0x1_0000_0000, x, 0x1_0000_0000);
    CongFromQuotient(x % 0x1_0000_0000, x, k * 0x400_0000, 64);
    CongSub(55, 55, low as int / 8, n, 64);
  }

  lemma PadIs<B>(first: B, zero: B, pad: seq<B>, k: nat)
    requires |pad| == 64 && pad[0] == first && (forall i :: 1 <= i < 64 ==> pad[i] == zero) && 1 <= k <= 64
    ensures pad[..k] == [first] + Zeros(zero, k - 1)
  {
  }

  /** The padding of a message: one byte 0x80 and the zeros that `pad` supplies. */
  lemma PadBytes<B>(toByte: nat -> B, m: seq<B>, pad: seq<B>, k: nat)
    requires |pad| == 64 && pad[0] == toByte(0x80) && forall i :: 1 <= i < 64 ==> pad[i] == toByte(0)
    requires k == (56 - (|m| + 1)) % 64 + 1
    ensures ZerosTo56(toByte(0), m + [toByte(0x80)]) == m + pad[..k]
  {
    PadIs(toByte(0x80), toByte(0), pad, k);
    PadWith(toByte(0x80), toByte(0), m, k);
  }

  lemma PadWith<B>(first: B, zero: B, m: seq<B>, k: nat)
    requires k == (56 - (|m| + 1)) % 64 + 1
    ensures ZerosTo56(zero, m + [first]) == m + ([first] + Zeros(zero, k - 1))
  {
    ZerosTo56Is(zero, m + [first]);
    assert m + [first] + Zeros(zero, k - 1) == m + ([first] + Zeros(zero, k - 1));
  }

  /** Bytes of x below bit 32 are bytes of its low word. */
  lemma {:induction false} LowWordBytes<B>(toByte: nat -> B, x: nat, w: nat, q: nat, k: nat)
    requires k <= 4 && x == w + q * Pow2(8 * k)
    ensures NatBytes(toByte, x, k) == NatBytes(toByte, w, k)
  {
    if k > 0 {
      Pow2Byte(k - 1);
      LowByte(x, w, q, Pow2(8 * (k - 1)));
      LowWordBytes(toByte, x / 0x100, w / 0x100, q, k - 1);
    }
  }

  lemma LowByte(x: nat, w: nat, q: nat, p: nat)
    requires x == w + q * (0x100 * p)
    ensures x % 0x100 == w % 0x100 && x / 0x100 == w / 0x100 + q * p
  {
    assert q * (0x100 * p) == 0x100 * (q * p);
    QuotientUnique(x, w / 0x100 + q * p, w % 0x100, 0x100);
  }

  lemma {:induction false} NatBytesSplit<B>(toByte: nat -> B, x: nat, k: nat, l: nat)
    ensures 0 <= x / Pow2(8 * k)
    ensures NatBytes(toByte, x, k + l) == NatBytes(toByte, x, k) + NatBytes(toByte, x / Pow2(8 * k), l)
    decreases k
  {
    QuotientIsNat(x, Pow2(8 * k));
    if k == 0 {
      assert Pow2(0) == 1;
    } else {
      Pow2Byte(k - 1);
      DivDiv(x, 0x100, Pow2(8 * (k - 1)));
      NatBytesSplit(toByte, x / 0x100, k - 1, l);
    }
  }

  /** The two words of the counter, byte by byte, are the low 64 bits of the length. */
  lemma LengthBytes<B>(toByte: nat -> B, low: u32, high: u32, n: nat)
    requires Counts(low, high, n)
    ensures NatBytes(toByte, 8 * n, 8) == NatBytes(toByte, low as nat, 4) + NatBytes(toByte, high as nat, 4)
  {
    var x := 8 * n;
    var q := x / 0x1_0000_0000;
    Pow2Word();
    NatBytesSplit(toByte, x, 4, 4);
    LowWordBytes(toByte, x, low as nat, q, 4);
    LowWordBytes(toByte, q, high as nat, q / 0x1_0000_0000, 4);
  }

  lemma Pow2Word()
    ensures Pow2(32) == 0x1_0000_0000
  {
    assert Pow2(8) == 0x100;
    Pow2Add(8, 8);
    Pow2Add(16, 16);
  }

  /** Byte i of a word is (w >> 8i) & 0xff. */
  lemma {:induction false} NatBytesAt<B>(toByte: nat -> B, w: nat, k: nat, i: nat)
    requires i < k
    ensures NatBytes(toByte, w, k)[i] == toByte(Shift(w, 8 * i) % 0x100)
    decreases k
  {
    if i == 0 {
      assert Pow2(0) == 1;
    } else {
      NatBytesAt(toByte, w / 0x100, k - 1, i - 1);
      Pow2Byte(i - 1);
      DivDiv(w, 0x100, Pow2(8 * (i - 1)));
    }
  }

  /** The loop that saves the length before padding. */
  method SaveLength<B>(toByte: nat -> B, low: u32, high: u32, ghost n: nat) returns (data: seq<B>)
    requires Counts(low, high, n)
    ensures data == NatBytes(toByte, 8 * n, 8)
  {
    ghost var all := NatBytes(toByte, 8 * n, 8);
    data := [];
    for i := 0 to 8
      invariant data == all[..i]
    {
      var w := if i / 4 == 0 then low else high;
      LengthByteAt(toByte, low, high, n, i);
      data := data + [toByte(Shift(w as nat, 8 * (i % 4)) % 0x100)];
    }
  }

  lemma LengthByteAt<B>(toByte: nat -> B, low: u32, high: u32, n: nat, i: nat)
    requires Counts(low, high, n) && i < 8
    ensures var w := if i / 4 == 0 then low else high;
            NatBytes(toByte, 8 * n, 8)[i] == toByte(Shift(w as nat, 8 * (i % 4)) % 0x100)
  {
    LengthBytes(toByte, low, high, n);
    if i < 4 {
      assert i / 4 == 0 && i % 4 == i;
      NatBytesAt(toByte, low as nat, 4, i);
    } else {
      assert i / 4 == 1 && i % 4 == i - 4;
      NatBytesAt(toByte, high as nat, 4, i - 4);
    }
  }

  // --------------------------------------------------------------------- whole blocks

  /** How many bytes of a message of length n fill whole blocks. */
  ghost function Whole(n: nat): (w: nat)
    ensures w <= n && w % 64 == 0 && n - w == n % 64
  {
    WholeBlocks(n);
    n - n % 64
  }

  lemma WholeBlocks(n: nat)
    ensures 0 <= n - n % 64 && (n - n % 64) % 64 == 0
  {
    RemainderUnique(n - n % 64, n / 64, 0, 64);
  }

  lemma WholeUnique(w: nat, k: nat)
    requires w % 64 == 0 && k < 64
    ensures Whole(w + k) == w && (w + k) % 64 == k
  {
    RemainderUnique(w + k, w / 64, k, 64);
  }

  /** memcpy into a buffer. */
  method CopyTo<B>(buf: array<B>, offset: nat, data: seq<B>)
    requires offset + |data| <= buf.Length
    modifies buf
    ensures buf[..offset + |data|] == old(buf[..offset]) + data
  {
    ghost var kept := buf[..offset];
    for k := 0 to |data|
      invariant buf[..offset + k] == kept + data[..k]
    {
      assert data[..k + 1] == data[..k] + [data[k]];
      buf[offset + k] := data[k];
    }
    assert data[..|data|] == data;
  }

  lemma BlocksStep<B, R>(process: (R, seq<B>) -> R, start: R, m: seq<B>, block: seq<B>)
    requires |m| % 64 == 0 && |block| == 64
    ensures |m + block| % 64 == 0 && Blocks(process, start, m + block) == process(Blocks(process, start, m), block)
  {
    OneBlockMore(|m|);
    assert (m + block)[..|m + block| - 64] == m && (m + block)[|m + block| - 64..] == block;
  }

  lemma OneBlockMore(n: nat)
    requires n % 64 == 0
    ensures (n + 64) % 64 == 0
  {
    RemainderUnique(n + 64, n / 64 + 1, 0, 64);
  }

  /** A stretch of the input up to a position, and a block more. */
  lemma NextBlock<B>(m: seq<B>, data: seq<B>, p: nat)
    requires p + 64 <= |data|
    ensures m + data[..p + 64] == m + data[..p] + data[p..p + 64]
  {
  }

  type BlockFunction = (Registers, seq<byte>) -> Registers

  /** `process` stands for the block function of the definition.  What follows only hands its results
      on, so it is proved for a name that stands for it. */
  ghost predicate NamesCompress(process: BlockFunction) {
    forall r: Registers, block: seq<byte> {:trigger Compress(r, block)} ::
      |block| == 64 ==> process(r, block) == Compress(r, block)
  }

  /** One block, by `md5_process`. */
  method ProcessBlock(ghost process: BlockFunction, abcd: Registers, block: seq<byte>) returns (abcd': Registers)
    requires NamesCompress(process) && |block| == 64
    ensures abcd' == process(abcd, block)
  {
    abcd' := Process(abcd, block);
  }

  /** The loop over full blocks that lie in the input itself. */
  method ProcessBlocks(ghost process: BlockFunction, ghost start: Registers, abcd: Registers, data: seq<byte>, from: nat,
                       ghost m: seq<byte>)
    returns (abcd': Registers, p: nat)
    requires NamesCompress(process)
    requires from <= |data| && |m + data[..from]| % 64 == 0 && abcd == Blocks(process, start, m + data[..from])
    ensures from <= p <= |data| < p + 64
    ensures |m + data[..p]| % 64 == 0 && abcd' == Blocks(process, start, m + data[..p])
  {
    abcd', p := abcd, from;
    var left := |data| - from;
    while left >= 64
      invariant from <= p <= |data| && left == |data| - p
      invariant |m + data[..p]| % 64 == 0 && abcd' == Blocks(process, start, m + data[..p])
    {
      BlocksStep(process, start, m + data[..p], data[p..p + 64]);
      NextBlock(m, data, p);
      abcd' := ProcessBlock(process, abcd', data[p..p + 64]);
      p, left := p + 64, left - 64;
    }
  }

  /** A piece that does not fill the buffer only lengthens the rest of the message. */
  lemma Partial<B>(m: seq<B>, input: seq<B>)
    requires |m| % 64 + |input| < 64
    ensures var w := Whole(|m|); Whole(|m + input|) == w && (m + input)[..w] == m[..w] && (m + input)[w..] == m[w..] + input
  {
    var w := Whole(|m|);
    WholeUnique(w, |m| - w + |input|);
  }

  /** A piece that fills the buffer completes a block. */
  lemma FullBuffer<B>(m: seq<B>, input: seq<B>, p: nat, block: seq<B>)
    requires p <= |input| && |m| % 64 + p == 64
    requires block == m[Whole(|m|)..] + input[..p]
    ensures var next := m + input[..p];
            |next| % 64 == 0 && |next| >= 64 && next[..|next| - 64] == m[..Whole(|m|)] && next[|next| - 64..] == block
  {
    var w := Whole(|m|);
    RemainderUnique(|m| + p, w / 64 + 1, 0, 64);
  }

  /** What is left after the full blocks is the rest of the message. */
  lemma Rest<B>(m: seq<B>, input: seq<B>, p: nat)
    requires p <= |input| < p + 64 && (|m| + p) % 64 == 0
    ensures var w := Whole(|m + input|); w == |m| + p && (m + input)[..w] == m + input[..p] && (m + input)[w..] == input[p..]
  {
    WholeUnique(|m| + p, |input| - p);
  }

  /** The state of a computation, and the message that has been appended so far. */
  class State {
    var low: u32
    var high: u32
    var abcd: Registers
    const buf: array<byte>
    ghost const process: BlockFunction
    ghost const start: Registers
    ghost var message: seq<byte>

    /** The registers hold the whole blocks of m and the buffer holds the rest. */
    ghost predicate Holds(m: seq<byte>)
      reads this, buf
    {
      var w := Whole(|m|);
      buf.Length == 64 && abcd == Blocks(process, start, m[..w]) && buf[..|m| - w] == m[w..]
    }

    ghost predicate Valid()
      reads this, buf
    {
      NamesCompress(process) && Counts(low, high, |message|) && Holds(message)
    }

    /** `md5_init`. */
    constructor (ghost process: BlockFunction)
      requires NamesCompress(process)
      ensures Valid() && fresh(buf) && message == [] && this.process == process && start == INITIAL
    {
      low, high := 0, 0;
      abcd := Registers(0x67452301, T_MASK ^ 0x10325476, T_MASK ^ 0x67452301, 0x10325476);
      start := INITIAL;
      buf := new byte[64];
      this.process := process;
      message := [];
    }

    /** `md5_append`. */
    method Append(data: seq<byte>, nbytes: int)
      requires Valid()
      requires nbytes <= |data| && |message| % 64 + nbytes <= INT_MAX
      modifies this, buf
      ensures Valid()
      ensures message == old(message) + if nbytes > 0 then data[..nbytes] else []
    {
      OffsetIs(low, high, |message|);
      var offset := low as int / 8 % 64;
      if nbytes <= 0 {
        return;
      }
      low, high := AddLength(low, high, nbytes, |message|);
      Absorb(data[..nbytes], offset, message);
      message := message + data[..nbytes];
    }

    /** The part of `md5_append` that moves data. */
    method Absorb(input: seq<byte>, offset: nat, ghost m: seq<byte>)
      requires NamesCompress(process) && Holds(m) && offset == |m| % 64
      modifies this`abcd, buf
      ensures Holds(m + input)
    {
      var p, full := 0, true;
      if offset != 0 {
        p, full := FillBuffer(input, offset, m);
      } else {
        assert m + input[..0] == m[..Whole(|m|)];
      }
      if full {
        abcd, p := ProcessBlocks(process, start, abcd, input, p, m);
        Rest(m, input, p);
        if p < |input| {
          CopyTo(buf, 0, input[p..]);
        }
      }
    }

    /** The initial partial block. */
    method FillBuffer(input: seq<byte>, offset: nat, ghost m: seq<byte>) returns (copy: nat, full: bool)
      requires NamesCompress(process) && Holds(m) && offset == |m| % 64 && offset > 0
      modifies this`abcd, buf
      ensures copy <= |input| && buf.Length == 64
      ensures full ==> |m + input[..copy]| % 64 == 0 && abcd == Blocks(process, start, m + input[..copy])
      ensures !full ==> Holds(m + input)
    {
      copy := if offset + |input| > 64 then 64 - offset else |input|;
      CopyTo(buf, offset, input[..copy]);
      full := offset + copy >= 64;
      if full {
        assert buf[..] == buf[..64];
        FullBuffer(m, input, copy, buf[..]);
        abcd := ProcessBlock(process, abcd, buf[..]);
      } else {
        Partial(m, input);
      }
    }

    /** `md5_finish`, up to the output of the registers. */
    method Finish(toByte: nat -> byte, pad: seq<byte>)
      requires Valid()
      requires |pad| == 64 && pad[0] == toByte(0x80) && forall i :: 1 <= i < 64 ==> pad[i] == toByte(0)
      modifies this, buf
      ensures Valid()
      ensures message == Padded(toByte, old(message))
      ensures abcd == Blocks(process, start, message)
    {
      ghost var m := message;
      var data := SaveLength(toByte, low, high, |m|);
      PadLength(low, high, |m|);
      var k := (55 - low as int / 8) % 0x1_0000_0000 % 64 + 1;
      PaddedIs(toByte, m, pad, k, data);
      Append(pad, k);
      Append(data, 8);
    }
  }

  /** Valid states of the same message agree on everything that later calls read: the counter,
      the registers and the used part of the buffer.  So the pieces in which it came leave no trace. */
  lemma SameMessageSameState(s: State, t: State)
    requires s.Valid() && t.Valid()
    requires s.message == t.message && s.process == t.process && s.start == t.start
    ensures s.low == t.low && s.high == t.high && s.abcd == t.abcd
    ensures s.low as int / 8 % 64 == |s.message| % 64
    ensures s.buf[..|s.message| % 64] == t.buf[..|s.message| % 64]
  {
    OffsetIs(s.low, s.high, |s.message|);
  }

  lemma PaddedIs<B>(toByte: nat -> B, m: seq<B>, pad: seq<B>, k: nat, data: seq<B>)
    requires |pad| == 64 && pad[0] == toByte(0x80) && forall i :: 1 <= i < 64 ==> pad[i] == toByte(0)
    requires k == (56 - (|m| + 1)) % 64 + 1 && data == NatBytes(toByte, 8 * |m|, 8)
    ensures |data| == 8
    ensures Padded(toByte, m) == m + pad[..k] + data[..8]
    ensures |m + pad[..k] + data[..8]| % 64 == 0
    ensures var p := m + pad[..k] + data[..8]; Whole(|p|) == |p| && p[..|p|] == p
  {
    PadBytes(toByte, m, pad, k);
    assert data[..8] == data;
  }
}

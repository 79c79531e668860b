/** MD5 as a whole: the streaming interface over the MD5 block function. */
module Md5Hash {
  import opened Words
  import opened Md5
  import opened Streaming

  function CompressBlock(r: Registers, block: seq<byte>): Registers {
    if |block| == 64 then Compress(r, block) else r
  }

  function WordBytes<W, B>(byteOf: (W, nat) -> B, w: W): seq<B> {
    [byteOf(w, 0), byteOf(w, 1), byteOf(w, 2), byteOf(w, 3)]
  }

  /** Section 3.5: the registers from A to D, low byte first. */
  function Output<W, B>(byteOf: (W, nat) -> B, a: W, b: W, c: W, d: W): seq<B> {
    WordBytes(byteOf, a) + WordBytes(byteOf, b) + WordBytes(byteOf, c) + WordBytes(byteOf, d)
  }

  /** The digest of a message by the definition of RFC 1321. */
  ghost function Digest(m: seq<byte>): seq<byte> {
    var r := Blocks(CompressBlock, INITIAL, Padded(ToByte, m));
    Output(ByteOf, r.a, r.b, r.c, r.d)
  }

  lemma SameOutput(r: Registers)
    ensures Output(ShiftedByte, r.a, r.b, r.c, r.d) == Output(ByteOf, r.a, r.b, r.c, r.d)
  {
    ShiftedByteIs(r.a);
    ShiftedByteIs(r.b);
    ShiftedByteIs(r.c);
    ShiftedByteIs(r.d);
  }

  /** Word i of a sequence of bytes. */
  function WordAt(b: seq<byte>, i: nat): word
    requires 4 * i + 4 <= |b|
  {
    WordOf(b[4 * i], b[4 * i + 1], b[4 * i + 2], b[4 * i + 3])
  }

  /** The output, read four bytes at a time with the low byte first, is the registers. */
  lemma OutputReads(r: Registers)
    ensures var o := Output(ByteOf, r.a, r.b, r.c, r.d);
            |o| == 16 && WordAt(o, 0) == r.a && WordAt(o, 1) == r.b && WordAt(o, 2) == r.c && WordAt(o, 3) == r.d
  {
    WordOfBytes(r.a);
    WordOfBytes(r.b);
    WordOfBytes(r.c);
    WordOfBytes(r.d);
  }

  /** The loop that writes the digest, four bytes of each register. */
  method WriteDigest<W, B>(byteOf: (W, nat) -> B, abcd: seq<W>) returns (digest: seq<B>)
    requires |abcd| == 4
    ensures digest == Output(byteOf, abcd[0], abcd[1], abcd[2], abcd[3])
  {
    digest := [];
    for i := 0 to 16
      invariant digest == Output(byteOf, abcd[0], abcd[1], abcd[2], abcd[3])[..i]
    {
      digest := digest + [byteOf(abcd[i / 4], i % 4)];
    }
  }

  ghost function Concat(pieces: seq<seq<byte>>): seq<byte> {
    if pieces == [] then [] else Concat(pieces[..|pieces| - 1]) + pieces[|pieces| - 1]
  }

  /** The table `pad`. */
  method Padding<B>(toByte: nat -> B) returns (pad: seq<B>)
    ensures |pad| == 64 && pad[0] == toByte(0x80) && forall i :: 1 <= i < 64 ==> pad[i] == toByte(0)
  {
    pad := [toByte(0x80)] + seq(63, _ => toByte(0));
  }

  /** No piece makes the sum of its length and the offset in the buffer leave the range of `int`. */
  ghost predicate Fits(pieces: seq<seq<byte>>) {
    forall i :: 0 <= i < |pieces| ==> |Concat(pieces[..i])| % 64 + |pieces[i]| <= INT_MAX
  }

  lemma ConcatStep(pieces: seq<seq<byte>>, i: nat)
    requires i < |pieces|
    ensures Concat(pieces[..i + 1]) == Concat(pieces[..i]) + pieces[i]
  {
    assert pieces[..i + 1][..i] == pieces[..i];
  }

  /** Appends pieces one by one to a fresh state. */
  method AppendAll(ghost process: BlockFunction, pieces: seq<seq<byte>>) returns (st: State)
    requires NamesCompress(process) && Fits(pieces)
    ensures fresh(st) && fresh(st.buf) && st.Valid() && st.process == process && st.start == INITIAL
    ensures st.message == Concat(pieces)
  {
    st := new State(process);
    for i := 0 to |pieces|
      invariant fresh(st) && fresh(st.buf) && st.Valid() && st.process == process && st.start == INITIAL
      invariant st.message == Concat(pieces[..i])
    {
      ConcatStep(pieces, i);
      st.Append(pieces[i], |pieces[i]|);
      assert pieces[i][..|pieces[i]|] == pieces[i];
    }
    assert pieces[..|pieces|] == pieces;
  }

  /** However a message is cut into pieces, appending them one by one and finishing gives the
      digest of the message. */
  method Hash(pieces: seq<seq<byte>>) returns (digest: seq<byte>)
    requires Fits(pieces)
    ensures digest == Digest(Concat(pieces))
  {
    var st := AppendAll(CompressBlock, pieces);
    var pad := Padding(ToByte);
    st.Finish(ToByte, pad);
    digest := WriteDigest(ShiftedByte, [st.abcd.a, st.abcd.b, st.abcd.c, st.abcd.d]);
    SameOutput(st.abcd);
  }
}

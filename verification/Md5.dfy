/** The block function of MD5, `md5_process`, against the definition of section 3.4 of RFC 1321. */
module Md5 {
  import opened Words

  /** The four registers. */
  datatype Registers = Registers(a: word, b: word, c: word, d: word)

  // --------------------------------------------------------------- the block function

  /** One operation of a round. */
  function Operation(a: word, b: word, f: word, x: word, s: shift, t: word): word
    requires 0 < s < 32
  {
    RotateLeft(a + f + x + t, s) + b
  }

  /** Section 3.4: b plus the sum rotated. */
  lemma OperationIs(a: word, b: word, f: word, x: word, s: shift, t: word)
    requires 0 < s < 32
    ensures Operation(a, b, f, x, s, t) == b + RotateLeft(a + f + x + t, s)
  {
  }

  /** The table T of section 3.4. */
  const T: seq<word> := [
    0xd76aa478, 0xe8c7b756, 0x242070db, 0xc1bdceee,
    0xf57c0faf, 0x4787c62a, 0xa8304613, 0xfd469501,
    0x698098d8, 0x8b44f7af, 0xffff5bb1, 0x895cd7be,
    0x6b901122, 0xfd987193, 0xa679438e, 0x49b40821,
    0xf61e2562, 0xc040b340, 0x265e5a51, 0xe9b6c7aa,
    0xd62f105d, 0x02441453, 0xd8a1e681, 0xe7d3fbc8,
    0x21e1cde6, 0xc33707d6, 0xf4d50d87, 0x455a14ed,
    0xa9e3e905, 0xfcefa3f8, 0x676f02d9, 0x8d2a4c8a,
    0xfffa3942, 0x8771f681, 0x6d9d6122, 0xfde5380c,
    0xa4beea44, 0x4bdecfa9, 0xf6bb4b60, 0xbebfbc70,
    0x289b7ec6, 0xeaa127fa, 0xd4ef3085, 0x04881d05,
    0xd9d4d039, 0xe6db99e5, 0x1fa27cf8, 0xc4ac5665,
    0xf4292244, 0x432aff97, 0xab9423a7, 0xfc93a039,
    0x655b59c3, 0x8f0ccc92, 0xffeff47d, 0x85845dd1,
    0x6fa87e4f, 0xfe2ce6e0, 0xa3014314, 0x4e0811a1,
    0xf7537e82, 0xbd3af235, 0x2ad7d2bb, 0xeb86d391
  ]

  const T_MASK: word := 0xffffffff

  /** The constants T1 to T64 as the program writes them. */
  const CONSTANTS: seq<word> := [
    T_MASK ^ 0x28955b87, T_MASK ^ 0x173848a9, 0x242070db, T_MASK ^ 0x3e423111,
    T_MASK ^ 0x0a83f050, 0x4787c62a, T_MASK ^ 0x57cfb9ec, T_MASK ^ 0x02b96afe,
    0x698098d8, T_MASK ^ 0x74bb0850, T_MASK ^ 0x0000a44e, T_MASK ^ 0x76a32841,
    0x6b901122, T_MASK ^ 0x02678e6c, T_MASK ^ 0x5986bc71, 0x49b40821,
    T_MASK ^ 0x09e1da9d, T_MASK ^ 0x3fbf4cbf, 0x265e5a51, T_MASK ^ 0x16493855,
    T_MASK ^ 0x29d0efa2, 0x02441453, T_MASK ^ 0x275e197e, T_MASK ^ 0x182c0437,
    0x21e1cde6, T_MASK ^ 0x3cc8f829, T_MASK ^ 0x0b2af278, 0x455a14ed,
    T_MASK ^ 0x561c16fa, T_MASK ^ 0x03105c07, 0x676f02d9, T_MASK ^ 0x72d5b375,
    T_MASK ^ 0x0005c6bd, T_MASK ^ 0x788e097e, 0x6d9d6122, T_MASK ^ 0x021ac7f3,
    T_MASK ^ 0x5b4115bb, 0x4bdecfa9, T_MASK ^ 0x0944b49f, T_MASK ^ 0x4140438f,
    0x289b7ec6, T_MASK ^ 0x155ed805, T_MASK ^ 0x2b10cf7a, 0x04881d05,
    T_MASK ^ 0x262b2fc6, T_MASK ^ 0x1924661a, 0x1fa27cf8, T_MASK ^ 0x3b53a99a,
    T_MASK ^ 0x0bd6ddbb, 0x432aff97, T_MASK ^ 0x546bdc58, T_MASK ^ 0x036c5fc6,
    0x655b59c3, T_MASK ^ 0x70f3336d, T_MASK ^ 0x00100b82, T_MASK ^ 0x7a7ba22e,
    0x6fa87e4f, T_MASK ^ 0x01d3191f, T_MASK ^ 0x5cfebceb, 0x4e0811a1,
    T_MASK ^ 0x08ac817d, T_MASK ^ 0x42c50dca, 0x2ad7d2bb, T_MASK ^ 0x14792c6e
  ]

  /** They are the table of the definition. */
  lemma ConstantsAreTable()
    ensures CONSTANTS == T
  {
  }

  /** The registers before the first block: section 3.3. */
  const INITIAL := Registers(0x67452301, 0xefcdab89, 0x98badcfe, 0x10325476)

  /** Which word of the block operation i uses. */
  function WordIndex(i: nat): nat
    requires i < 64
  {
    if i < 16 then i else if i < 32 then (5 * i + 1) % 16 else if i < 48 then (3 * i + 5) % 16 else 7 * i % 16
  }

  /** How far operation i rotates. */
  function Rotation(i: nat): (s: shift)
    requires i < 64
    ensures 0 < s < 32
  {
    if i < 16 then Cycle(i, 7, 12, 17, 22)
    else if i < 32 then Cycle(i, 5, 9, 14, 20)
    else if i < 48 then Cycle(i, 4, 11, 16, 23)
    else Cycle(i, 6, 10, 15, 21)
  }

  function Cycle(i: nat, s0: shift, s1: shift, s2: shift, s3: shift): shift {
    if i % 4 == 0 then s0 else if i % 4 == 1 then s1 else if i % 4 == 2 then s2 else s3
  }

  /** The auxiliary function of operation i. */
  function Auxiliary(i: nat, x: word, y: word, z: word): word
    requires i < 64
  {
    if i < 16 then F(x, y, z) else if i < 32 then G(x, y, z) else if i < 48 then H(x, y, z) else I(x, y, z)
  }

  /** The registers after the first n operations, which rename the registers one place each. */
  function Rounds(x: seq<word>, start: Registers, n: nat): Registers
    requires |x| == 16 && n <= 64
    decreases n, start
  {
    if n == 0 then start
    else
      var r := Rounds(x, start, n - 1);
      var i := n - 1;
      Registers(r.d, Operation(r.a, r.b, Auxiliary(i, r.b, r.c, r.d), x[WordIndex(i)], Rotation(i), T[i]), r.b, r.c)
  }

  type Progress = (Registers, nat) -> bool

  /** `at` says of registers that they are those after n operations.  The rounds below only
      hand this fact on, so they are proved for a name that stands for it. */
  ghost predicate Names(at: Progress, x: seq<word>, start: Registers)
    requires |x| == 16
  {
    forall r: Registers, n: nat {:trigger IsAt(x, start, r, n)} :: at(r, n) == IsAt(x, start, r, n)
  }

  ghost predicate IsAt(x: seq<word>, start: Registers, r: Registers, n: nat)
    requires |x| == 16
  {
    n <= 64 && r == Rounds(x, start, n)
  }

  /** SET(a, b, c, d, k, s, T) of round 1, as operation i. */
  method SetF(ghost at: Progress, ghost start: Registers, x: seq<word>, a: word, b: word, c: word, d: word, k: nat, s: shift, i: nat)
    returns (a': word)
    requires |x| == 16 && Names(at, x, start)
    requires 0 <= i < 16 && k == i && s == Cycle(i, 7, 12, 17, 22) && at(Registers(a, b, c, d), i)
    ensures at(Registers(d, a', b, c), i + 1)
  {
    assert IsAt(x, start, Registers(a, b, c, d), i);
    ConstantsAreTable();
    a' := Operation(a, b, F(b, c, d), x[k], s, CONSTANTS[i]);
    assert IsAt(x, start, Registers(d, a', b, c), i + 1);
  }

  /** SET(a, b, c, d, k, s, T) of round 2, as operation i. */
  method SetG(ghost at: Progress, ghost start: Registers, x: seq<word>, a: word, b: word, c: word, d: word, k: nat, s: shift, i: nat)
    returns (a': word)
    requires |x| == 16 && Names(at, x, start)
    requires 16 <= i < 32 && k == (5 * i + 1) % 16 && s == Cycle(i, 5, 9, 14, 20) && at(Registers(a, b, c, d), i)
    ensures at(Registers(d, a', b, c), i + 1)
  {
    assert IsAt(x, start, Registers(a, b, c, d), i);
    ConstantsAreTable();
    a' := Operation(a, b, G(b, c, d), x[k], s, CONSTANTS[i]);
    assert IsAt(x, start, Registers(d, a', b, c), i + 1);
  }

  /** SET(a, b, c, d, k, s, T) of round 3, as operation i. */
  method SetH(ghost at: Progress, ghost start: Registers, x: seq<word>, a: word, b: word, c: word, d: word, k: nat, s: shift, i: nat)
    returns (a': word)
    requires |x| == 16 && Names(at, x, start)
    requires 32 <= i < 48 && k == (3 * i + 5) % 16 && s == Cycle(i, 4, 11, 16, 23) && at(Registers(a, b, c, d), i)
    ensures at(Registers(d, a', b, c), i + 1)
  {
    assert IsAt(x, start, Registers(a, b, c, d), i);
    ConstantsAreTable();
    a' := Operation(a, b, H(b, c, d), x[k], s, CONSTANTS[i]);
    assert IsAt(x, start, Registers(d, a', b, c), i + 1);
  }

  /** SET(a, b, c, d, k, s, T) of round 4, as operation i. */
  method SetI(ghost at: Progress, ghost start: Registers, x: seq<word>, a: word, b: word, c: word, d: word, k: nat, s: shift, i: nat)
    returns (a': word)
    requires |x| == 16 && Names(at, x, start)
    requires 48 <= i < 64 && k == 7 * i % 16 && s == Cycle(i, 6, 10, 15, 21) && at(Registers(a, b, c, d), i)
    ensures at(Registers(d, a', b, c), i + 1)
  {
    assert IsAt(x, start, Registers(a, b, c, d), i);
    ConstantsAreTable();
    a' := Operation(a, b, I(b, c, d), x[k], s, CONSTANTS[i]);
    assert IsAt(x, start, Registers(d, a', b, c), i + 1);
  }

  /** Four operations of round 1, after which every register has its own name again. */
  method QuadF(ghost at: Progress, ghost start: Registers, x: seq<word>, r: Registers, k0: nat, k1: nat, k2: nat, k3: nat, i: nat)
    returns (r': Registers)
    requires |x| == 16 && Names(at, x, start)
    requires 0 <= i < 16 && i % 4 == 0 && at(r, i)
    requires k0 == i && k1 == i + 1 && k2 == i + 2 && k3 == i + 3
    ensures at(r', i + 4)
  {
    var a, b, c, d := r.a, r.b, r.c, r.d;
    a := SetF(at, start, x, a, b, c, d, k0, 7, i);
    d := SetF(at, start, x, d, a, b, c, k1, 12, i + 1);
    c := SetF(at, start, x, c, d, a, b, k2, 17, i + 2);
    b := SetF(at, start, x, b, c, d, a, k3, 22, i + 3);
    r' := Registers(a, b, c, d);
  }

  /** Four operations of round 2, after which every register has its own name again. */
  method QuadG(ghost at: Progress, ghost start: Registers, x: seq<word>, r: Registers, k0: nat, k1: nat, k2: nat, k3: nat, i: nat)
    returns (r': Registers)
    requires |x| == 16 && Names(at, x, start)
    requires 16 <= i < 32 && i % 4 == 0 && at(r, i)
    requires k0 == (5 * i + 1) % 16 && k1 == (5 * (i + 1) + 1) % 16 && k2 == (5 * (i + 2) + 1) % 16 && k3 == (5 * (i + 3) + 1) % 16
    ensures at(r', i + 4)
  {
    var a, b, c, d := r.a, r.b, r.c, r.d;
    a := SetG(at, start, x, a, b, c, d, k0, 5, i);
    d := SetG(at, start, x, d, a, b, c, k1, 9, i + 1);
    c := SetG(at, start, x, c, d, a, b, k2, 14, i + 2);
    b := SetG(at, start, x, b, c, d, a, k3, 20, i + 3);
    r' := Registers(a, b, c, d);
  }

  /** Four operations of round 3, after which every register has its own name again. */
  method QuadH(ghost at: Progress, ghost start: Registers, x: seq<word>, r: Registers, k0: nat, k1: nat, k2: nat, k3: nat, i: nat)
    returns (r': Registers)
    requires |x| == 16 && Names(at, x, start)
    requires 32 <= i < 48 && i % 4 == 0 && at(r, i)
    requires k0 == (3 * i + 5) % 16 && k1 == (3 * (i + 1) + 5) % 16 && k2 == (3 * (i + 2) + 5) % 16 && k3 == (3 * (i + 3) + 5) % 16
    ensures at(r', i + 4)
  {
    var a, b, c, d := r.a, r.b, r.c, r.d;
    a := SetH(at, start, x, a, b, c, d, k0, 4, i);
    d := SetH(at, start, x, d, a, b, c, k1, 11, i + 1);
    c := SetH(at, start, x, c, d, a, b, k2, 16, i + 2);
    b := SetH(at, start, x, b, c, d, a, k3, 23, i + 3);
    r' := Registers(a, b, c, d);
  }

  /** Four operations of round 4, after which every register has its own name again. */
  method QuadI(ghost at: Progress, ghost start: Registers, x: seq<word>, r: Registers, k0: nat, k1: nat, k2: nat, k3: nat, i: nat)
    returns (r': Registers)
    requires |x| == 16 && Names(at, x, start)
    requires 48 <= i < 64 && i % 4 == 0 && at(r, i)
    requires k0 == 7 * i % 16 && k1 == 7 * (i + 1) % 16 && k2 == 7 * (i + 2) % 16 && k3 == 7 * (i + 3) % 16
    ensures at(r', i + 4)
  {
    var a, b, c, d := r.a, r.b, r.c, r.d;
    a := SetI(at, start, x, a, b, c, d, k0, 6, i);
    d := SetI(at, start, x, d, a, b, c, k1, 10, i + 1);
    c := SetI(at, start, x, c, d, a, b, k2, 15, i + 2);
    b := SetI(at, start, x, b, c, d, a, k3, 21, i + 3);
    r' := Registers(a, b, c, d);
  }

  /** Round 1, with the word indices as the program lists them. */
  method Round1(ghost at: Progress, ghost start: Registers, x: seq<word>, r: Registers) returns (r': Registers)
    requires |x| == 16 && Names(at, x, start) && at(r, 0)
    ensures at(r', 16)
  {
    r' := QuadF(at, start, x, r, 0, 1, 2, 3, 0);
    r' := QuadF(at, start, x, r', 4, 5, 6, 7, 4);
    r' := QuadF(at, start, x, r', 8, 9, 10, 11, 8);
    r' := QuadF(at, start, x, r', 12, 13, 14, 15, 12);
  }

  /** Round 2, with the word indices as the program lists them. */
  method Round2(ghost at: Progress, ghost start: Registers, x: seq<word>, r: Registers) returns (r': Registers)
    requires |x| == 16 && Names(at, x, start) && at(r, 16)
    ensures at(r', 32)
  {
    r' := QuadG(at, start, x, r, 1, 6, 11, 0, 16);
    r' := QuadG(at, start, x, r', 5, 10, 15, 4, 20);
    r' := QuadG(at, start, x, r', 9, 14, 3, 8, 24);
    r' := QuadG(at, start, x, r', 13, 2, 7, 12, 28);
  }

  /** Round 3, with the word indices as the program lists them. */
  method Round3(ghost at: Progress, ghost start: Registers, x: seq<word>, r: Registers) returns (r': Registers)
    requires |x| == 16 && Names(at, x, start) && at(r, 32)
    ensures at(r', 48)
  {
    r' := QuadH(at, start, x, r, 5, 8, 11, 14, 32);
    r' := QuadH(at, start, x, r', 1, 4, 7, 10, 36);
    r' := QuadH(at, start, x, r', 13, 0, 3, 6, 40);
    r' := QuadH(at, start, x, r', 9, 12, 15, 2, 44);
  }

  /** Round 4, with the word indices as the program lists them. */
  method Round4(ghost at: Progress, ghost start: Registers, x: seq<word>, r: Registers) returns (r': Registers)
    requires |x| == 16 && Names(at, x, start) && at(r, 48)
    ensures at(r', 64)
  {
    r' := QuadI(at, start, x, r, 0, 7, 14, 5, 48);
    r' := QuadI(at, start, x, r', 12, 3, 10, 1, 52);
    r' := QuadI(at, start, x, r', 8, 15, 6, 13, 56);
    r' := QuadI(at, start, x, r', 4, 11, 2, 9, 60);
  }

  /** The sixteen words of a block. */
  function Decode(block: seq<byte>): (x: seq<word>)
    requires |block| == 64
    ensures |x| == 16
  {
    seq(16, i requires 0 <= i < 16 => WordOf(block[4 * i], block[4 * i + 1], block[4 * i + 2], block[4 * i + 3]))
  }

  function Sum(x: word, y: word): word { x + y }

  /** Each register increased by the value that it had before. */
  function Increment(r: Registers, s: Registers): Registers {
    Registers(Sum(r.a, s.a), Sum(r.b, s.b), Sum(r.c, s.c), Sum(r.d, s.d))
  }

  /** The new registers after one block, by the definition of section 3.4. */
  function Compress(r: Registers, block: seq<byte>): Registers
    requires |block| == 64
  {
    Increment(r, Rounds(Decode(block), r, 64))
  }

  /** The loop that arranges the bytes of a block as words. */
  method Arrange(block: seq<byte>) returns (x: seq<word>)
    requires |block| == 64
    ensures x == Decode(block)
  {
    x := [];
    for i := 0 to 16
      invariant x == Decode(block)[..i]
    {
      x := x + [Join(block[4 * i], block[4 * i + 1], block[4 * i + 2], block[4 * i + 3])];
    }
  }

  /** Four bytes as the code joins them. */
  function Join(b0: byte, b1: byte, b2: byte, b3: byte): (w: word)
    ensures w == WordOf(b0, b1, b2, b3)
  {
    b0 as word + (b1 as word << 8) + (b2 as word << 16) + (b3 as word << 24)
  }

  method FourRounds(ghost at: Progress, start: Registers, x: seq<word>) returns (r: Registers)
    requires |x| == 16 && Names(at, x, start) && at(start, 0)
    ensures at(r, 64)
  {
    r := Round1(at, start, x, start);
    r := Round2(at, start, x, r);
    r := Round3(at, start, x, r);
    r := Round4(at, start, x, r);
  }

  method RunRounds(start: Registers, x: seq<word>) returns (r: Registers)
    requires |x| == 16
    ensures r == Rounds(x, start, 64)
  {
    ghost var at: Progress := (r: Registers, n: nat) => IsAt(x, start, r, n);
    assert IsAt(x, start, start, 0);
    r := FourRounds(at, start, x);
    assert IsAt(x, start, r, 64);
  }

  /** `md5_process`: the four rounds, and the increment of the registers. */
  method Process(abcd: Registers, block: seq<byte>) returns (abcd': Registers)
    requires |block| == 64
    ensures abcd' == Compress(abcd, block)
  {
    var x := Arrange(block);
    var r := RunRounds(abcd, x);
    abcd' := Registers(Sum(abcd.a, r.a), Sum(abcd.b, r.b), Sum(abcd.c, r.c), Sum(abcd.d, r.d));
  }
}

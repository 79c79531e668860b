/** 32-bit words: their bytes, their bits, and what the operations of MD5 on them mean for the
    numbers that they stand for. */
module Words {
  type byte = bv8
  type word = bv32

  /** The distance of a shift. */
  type shift = bv6

  // ---------------------------------------------------------------------------------- bytes

  /** A word from four bytes, low byte first. */
  function WordOf(b0: byte, b1: byte, b2: byte, b3: byte): word {
    b0 as word + b1 as word * 0x100 + b2 as word * 0x10000 + b3 as word * 0x1000000
  }

  /** Byte j of a word, by division. */
  function ByteOf(w: word, j: nat): byte {
    if j == 0 then (w % 0x100) as byte
    else if j == 1 then (w / 0x100 % 0x100) as byte
    else if j == 2 then (w / 0x10000 % 0x100) as byte
    else (w / 0x1000000) as byte
  }

  /** Byte j of a word, as the code shifts it out. */
  function ShiftedByte(w: word, j: nat): byte {
    var n: shift := if j % 4 == 0 then 0 else if j % 4 == 1 then 8 else if j % 4 == 2 then 16 else 24;
    ((w >> n) & 0xff) as byte
  }

  lemma ShiftedByteIs(w: word)
    ensures ShiftedByte(w, 0) == ByteOf(w, 0) && ShiftedByte(w, 1) == ByteOf(w, 1)
    ensures ShiftedByte(w, 2) == ByteOf(w, 2) && ShiftedByte(w, 3) == ByteOf(w, 3)
  {
  }

  /** The bytes of a word give it back. */
  lemma WordOfBytes(w: word)
    ensures WordOf(ByteOf(w, 0), ByteOf(w, 1), ByteOf(w, 2), ByteOf(w, 3)) == w
  {
  }

  /** A word stands for the number of which its bytes are the digits to the base 256, low byte first. */
  lemma WordValue(b0: byte, b1: byte, b2: byte, b3: byte)
    ensures WordOf(b0, b1, b2, b3) as int ==
              b0 as int + 0x100 * b1 as int + 0x10000 * b2 as int + 0x1000000 * b3 as int
  {
    var two := (b3 as bv16 << 8) | b2 as bv16;
    var three := (two as bv24 << 8) | b1 as bv24;
    var four := (three as word << 8) | b0 as word;
    Joined16(b3, b2);
    Joined24(two, b1);
    Joined32(three, b0);
    JoinedIs(b0, b1, b2, b3);
  }

  lemma Joined16(hi: byte, lo: byte)
    ensures ((hi as bv16 << 8) | lo as bv16) as int == 0x100 * hi as int + lo as int
  {
  }

  lemma Joined24(hi: bv16, lo: byte)
    ensures ((hi as bv24 << 8) | lo as bv24) as int == 0x100 * hi as int + lo as int
  {
  }

  lemma Joined32(hi: bv24, lo: byte)
    ensures ((hi as word << 8) | lo as word) as int == 0x100 * hi as int + lo as int
  {
  }

  lemma JoinedIs(b0: byte, b1: byte, b2: byte, b3: byte)
    ensures WordOf(b0, b1, b2, b3) ==
              (((((b3 as bv16 << 8) | b2 as bv16) as bv24 << 8) | b1 as bv24) as word << 8) | b0 as word
  {
  }

  /** The byte with a given value. */
  function ToByte(n: nat): byte {
    (n % 0x100) as byte
  }

  /** It is the byte whose value the number leaves when divided by 256. */
  lemma ToByteOfValue(b: byte, n: nat)
    requires n % 0x100 == b as int
    ensures ToByte(n) == b
  {
  }

  // ----------------------------------------------------------------- the auxiliary functions

  function F(x: word, y: word, z: word): word { (x & y) | (!x & z) }
  function G(x: word, y: word, z: word): word { (x & z) | (y & !z) }
  function H(x: word, y: word, z: word): word { x ^ y ^ z }
  function I(x: word, y: word, z: word): word { y ^ (x | !z) }

  /** On the places m where all bits of x are set F is y, on those where none is it is z. */
  lemma FSelects(x: word, y: word, z: word, m: word)
    ensures x & m == m ==> F(x, y, z) & m == y & m
    ensures x & m == 0 ==> F(x, y, z) & m == z & m
  {
  }

  /** On the places where all bits of z are set G is x, on those where none is it is y. */
  lemma GSelects(x: word, y: word, z: word, m: word)
    ensures z & m == m ==> G(x, y, z) & m == x & m
    ensures z & m == 0 ==> G(x, y, z) & m == y & m
  {
  }

  /** On the places where y and z agree H is x, on those where they differ it is the opposite of x. */
  lemma HParity(x: word, y: word, z: word, m: word)
    ensures y & m == z & m ==> H(x, y, z) & m == x & m
    ensures y & m == !z & m ==> H(x, y, z) & m == !x & m
  {
  }

  /** On the places where x is set or z is not I is the opposite of y, on the others it is y. */
  lemma IParity(x: word, y: word, z: word, m: word)
    ensures x & m == m || z & m == 0 ==> I(x, y, z) & m == !y & m
    ensures x & m == 0 && z & m == m ==> I(x, y, z) & m == y & m
  {
  }

  // ------------------------------------------------------------------------------- rotation

  function RotateLeft(x: word, n: shift): word
    requires 0 < n < 32
  {
    (x << n) | (x >> (32 - n))
  }

  // Rotation by n multiplies by 2^n, without what leaves the word, and adds the quotient by 2^(32 - n),
  // which is what left it; one lemma for each distance that occurs.

  lemma RotateBy4(x: word) ensures RotateLeft(x, 4) == x * 0x10 + x / 0x10000000 {}
  lemma RotateBy5(x: word) ensures RotateLeft(x, 5) == x * 0x20 + x / 0x8000000 {}
  lemma RotateBy6(x: word) ensures RotateLeft(x, 6) == x * 0x40 + x / 0x4000000 {}
  lemma RotateBy7(x: word) ensures RotateLeft(x, 7) == x * 0x80 + x / 0x2000000 {}
  lemma RotateBy9(x: word) ensures RotateLeft(x, 9) == x * 0x200 + x / 0x800000 {}
  lemma RotateBy10(x: word) ensures RotateLeft(x, 10) == x * 0x400 + x / 0x400000 {}
  lemma RotateBy11(x: word) ensures RotateLeft(x, 11) == x * 0x800 + x / 0x200000 {}
  lemma RotateBy12(x: word) ensures RotateLeft(x, 12) == x * 0x1000 + x / 0x100000 {}
  lemma RotateBy14(x: word) ensures RotateLeft(x, 14) == x * 0x4000 + x / 0x40000 {}
  lemma RotateBy15(x: word) ensures RotateLeft(x, 15) == x * 0x8000 + x / 0x20000 {}
  lemma RotateBy16(x: word) ensures RotateLeft(x, 16) == x * 0x10000 + x / 0x10000 {}
  lemma RotateBy17(x: word) ensures RotateLeft(x, 17) == x * 0x20000 + x / 0x8000 {}
  lemma RotateBy20(x: word) ensures RotateLeft(x, 20) == x * 0x100000 + x / 0x1000 {}
  lemma RotateBy21(x: word) ensures RotateLeft(x, 21) == x * 0x200000 + x / 0x800 {}
  lemma RotateBy22(x: word) ensures RotateLeft(x, 22) == x * 0x400000 + x / 0x400 {}
  lemma RotateBy23(x: word) ensures RotateLeft(x, 23) == x * 0x800000 + x / 0x200 {}
}

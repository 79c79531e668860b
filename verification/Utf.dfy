/** Transcoding between UTF-8 and UTF-16: `utf8::next`, `utf8::encode`, `utf16::next`,
    `utf16::encode`, and the loops `tosqlwide`, `widen` and `narrower` over them. */
module Utf {
  import opened Options
  import opened Modular
  import opened Bits
  import opened Transcoding

  newtype u16 = x: int | 0 <= x < 0x1_0000

  const ILLEGAL: int := 0xFFFF_FFFF

  // ------------------------------------------------------------- the grammar of RFC 3629

  predicate Tail(b: u8) {
    0x80 <= b <= 0xBF
  }

  /** The rule UTF8-char of section 4 of RFC 3629. */
  predicate Utf8Char(c: seq<u8>) {
    match |c|
    case 1 => c[0] <= 0x7F
    case 2 => 0xC2 <= c[0] <= 0xDF && Tail(c[1])
    case 3 =>
      || (c[0] == 0xE0 && 0xA0 <= c[1] <= 0xBF && Tail(c[2]))
      || (0xE1 <= c[0] <= 0xEC && Tail(c[1]) && Tail(c[2]))
      || (c[0] == 0xED && 0x80 <= c[1] <= 0x9F && Tail(c[2]))
      || (0xEE <= c[0] <= 0xEF && Tail(c[1]) && Tail(c[2]))
    case 4 =>
      || (c[0] == 0xF0 && 0x90 <= c[1] <= 0xBF && Tail(c[2]) && Tail(c[3]))
      || (0xF1 <= c[0] <= 0xF3 && Tail(c[1]) && Tail(c[2]) && Tail(c[3]))
      || (c[0] == 0xF4 && 0x80 <= c[1] <= 0x8F && Tail(c[2]) && Tail(c[3]))
    case _ => false
  }

  /** The rule UTF8-octets: a sequence of characters. */
  ghost predicate Utf8Octets(s: seq<u8>)
    decreases |s|
  {
    s == [] || exists k :: 1 <= k <= |s| && Utf8Char(s[..k]) && Utf8Octets(s[k..])
  }

  // ---------------------------------------------------------------- encoding, as specified

  /** The octets of a scalar value, by the table of section 3 of RFC 3629. */
  function Utf8Of(v: nat): seq<u8>
    requires v <= 0x10FFFF
  {
    if v <= 0x7F then [v as u8]
    else if v <= 0x7FF then [(0xC0 + v / 0x40) as u8, (0x80 + v % 0x40) as u8]
    else if v <= 0xFFFF then
      [(0xE0 + v / 0x1000) as u8, (0x80 + v / 0x40 % 0x40) as u8, (0x80 + v % 0x40) as u8]
    else
      [(0xF0 + v / 0x4_0000) as u8, (0x80 + v / 0x1000 % 0x40) as u8, (0x80 + v / 0x40 % 0x40) as u8, (0x80 + v % 0x40) as u8]
  }

  /** The code units of a scalar value, by section 2.1 of RFC 2781. */
  function Utf16Of(v: nat): seq<u16>
    requires v <= 0x10FFFF
  {
    if v <= 0xFFFF then [v as u16]
    else [(0xD800 + (v - 0x10000) / 0x400) as u16, (0xDC00 + (v - 0x10000) % 0x400) as u16]
  }

  // -------------------------------------------------------------------- encoding, as coded

  lemma SmallPow2()
    ensures Pow2(3) == 8 && Pow2(4) == 0x10 && Pow2(5) == 0x20 && Pow2(6) == 0x40 && Pow2(7) == 0x80 && Pow2(10) == 0x400
  {
    Pow2Add(5, 5);
  }

  /** (x & 0x3F) | 0x80. */
  method TailByte(x: nat) returns (b: u8)
    ensures b as int == 0x80 + x % 0x40
  {
    SmallPow2();
    AndMask(x, 6);
    OrDisjoint(x % 0x40, 0x80, 6);
    b := Or(And(x, 0x3F), 0x80) as u8;
  }

  /** x | mark, where the mark lies above the n bits of x. */
  method LeadByte(x: nat, mark: nat, ghost n: nat) returns (b: u8)
    requires x < Pow2(n) && mark % Pow2(n) == 0 && x + mark < 0x100
    ensures b as int == mark + x
  {
    OrDisjoint(x, mark, n);
    b := Or(x, mark) as u8;
  }

  /** `utf8::encode`. */
  method Encode8(value: nat) returns (c: seq<u8>)
    requires value <= 0x10FFFF
    ensures c == Utf8Of(value)
  {
    SmallPow2();
    var b0: u8, b1: u8, b2: u8, b3: u8;
    if value <= 0x7F {
      c := [value as u8];
    } else if value <= 0x7FF {
      b0 := LeadByte(value / 0x40, 0xC0, 5);
      b1 := TailByte(value);
      c := [b0, b1];
    } else if value <= 0xFFFF {
      b0 := LeadByte(value / 0x1000, 0xE0, 4);
      b1 := TailByte(value / 0x40);
      b2 := TailByte(value);
      c := [b0, b1, b2];
    } else {
      b0 := LeadByte(value / 0x4_0000, 0xF0, 3);
      b1 := TailByte(value / 0x1000);
      b2 := TailByte(value / 0x40);
      b3 := TailByte(value);
      c := [b0, b1, b2, b3];
    }
  }

  lemma LowTenBits(u: nat)
    ensures And(u, 0x3FF) == u % 0x400
  {
    SmallPow2();
    AndMask(u, 10);
  }

  /** mark | x, where the mark lies above the ten bits of x. */
  method Surrogate(mark: nat, x: nat) returns (w: u16)
    requires x < 0x400 && mark % 0x400 == 0 && mark + x < 0x1_0000
    ensures w as int == mark + x
  {
    SmallPow2();
    OrDisjoint(x, mark, 10);
    OrSymmetric(x, mark);
    w := Or(mark, x) as u16;
  }

  /** `utf16::encode`. */
  method Encode16(value: nat) returns (c: seq<u16>)
    requires value <= 0x10FFFF
    ensures c == Utf16Of(value)
  {
    if value <= 0xFFFF {
      c := [value as u16];
    } else {
      var u := value - 0x10000;
      var high := Surrogate(0xD800, u / 0x400);
      LowTenBits(u);
      var low := Surrogate(0xDC00, And(u, 0x3FF));
      c := [high, low];
    }
  }

  // --------------------------------------------------------- decoding one character, as specified

  /** The value of a character, by section 3 of RFC 3629. */
  function Value8(c: seq<u8>): nat
    requires Utf8Char(c)
  {
    if |c| == 1 then c[0] as nat
    else if |c| == 2 then (c[0] as nat - 0xC0) * 0x40 + (c[1] as nat - 0x80)
    else if |c| == 3 then (c[0] as nat - 0xE0) * 0x1000 + (c[1] as nat - 0x80) * 0x40 + (c[2] as nat - 0x80)
    else (c[0] as nat - 0xF0) * 0x4_0000 + (c[1] as nat - 0x80) * 0x1000 + (c[2] as nat - 0x80) * 0x40 + (c[3] as nat - 0x80)
  }

  /** The length of the first character of s by the grammar, or 0 if it has none. */
  function First8(s: seq<u8>): (k: nat)
    ensures k > 0 ==> k <= |s| && Utf8Char(s[..k])
  {
    if |s| >= 1 && Utf8Char(s[..1]) then 1
    else if |s| >= 2 && Utf8Char(s[..2]) then 2
    else if |s| >= 3 && Utf8Char(s[..3]) then 3
    else if |s| >= 4 && Utf8Char(s[..4]) then 4
    else 0
  }

  predicate HighSurrogate(w: u16) { 0xD800 <= w <= 0xDBFF }
  predicate LowSurrogate(w: u16) { 0xDC00 <= w <= 0xDFFF }

  /** The length of the first character of w by section 2.2 of RFC 2781, or 0 if it has none. */
  function First16(w: seq<u16>): (k: nat)
    ensures k <= |w|
  {
    if |w| >= 1 && !HighSurrogate(w[0]) && !LowSurrogate(w[0]) then 1
    else if |w| >= 2 && HighSurrogate(w[0]) && LowSurrogate(w[1]) then 2
    else 0
  }

  /** Its value. */
  function Value16(c: seq<u16>): nat
    requires First16(c) == |c| > 0
  {
    if |c| == 1 then c[0] as nat
    else (c[0] as nat - 0xD800) * 0x400 + (c[1] as nat - 0xDC00) + 0x10000
  }

  /** What the grammar accepts as a character is the encoding of a scalar value. */
  lemma CharEncodes(c: seq<u8>)
    requires Utf8Char(c)
    ensures Valid(Value8(c)) && Utf8Of(Value8(c)) == c
  {
    if |c| == 2 {
      Digits(0, 0, c[0] as int - 0xC0, c[1] as int - 0x80);
    } else if |c| == 3 {
      ThreeEncodes(c);
    } else if |c| == 4 {
      FourEncodes(c);
    }
  }

  lemma ThreeEncodes(c: seq<u8>)
    requires Utf8Char(c) && |c| == 3
    ensures Valid(Value8(c)) && Utf8Of(Value8(c)) == c
  {
    var x, y, z := c[0] as int - 0xE0, c[1] as int - 0x80, c[2] as int - 0x80;
    var v := Value8(c);
    Digits(0, x, y, z);
    assert 0x7FF < v <= 0xFFFF;
    assert Utf8Of(v) == [(0xE0 + x) as u8, (0x80 + y) as u8, (0x80 + z) as u8];
  }

  lemma FourEncodes(c: seq<u8>)
    requires Utf8Char(c) && |c| == 4
    ensures Valid(Value8(c)) && Utf8Of(Value8(c)) == c
  {
    var w, x, y, z := c[0] as int - 0xF0, c[1] as int - 0x80, c[2] as int - 0x80, c[3] as int - 0x80;
    var v := Value8(c);
    Digits(w, x, y, z);
    assert 0xFFFF < v <= 0x10FFFF;
    assert Utf8Of(v) == [(0xF0 + w) as u8, (0x80 + x) as u8, (0x80 + y) as u8, (0x80 + z) as u8];
  }

  /** The base-64 digits of a number. */
  lemma Digits(a: int, b: int, c: int, d: int)
    requires 0 <= b < 0x40 && 0 <= c < 0x40 && 0 <= d < 0x40
    ensures var v := a * 0x4_0000 + b * 0x1000 + c * 0x40 + d;
            v / 0x4_0000 == a && v / 0x1000 == a * 0x40 + b && v / 0x1000 % 0x40 == b &&
            v / 0x40 == a * 0x1000 + b * 0x40 + c && v / 0x40 % 0x40 == c && v % 0x40 == d
  {
    var v := a * 0x4_0000 + b * 0x1000 + c * 0x40 + d;
    QuotientUnique(v, a, b * 0x1000 + c * 0x40 + d, 0x4_0000);
    QuotientUnique(v, a * 0x40 + b, c * 0x40 + d, 0x1000);
    QuotientUnique(a * 0x40 + b, a, b, 0x40);
    QuotientUnique(v, a * 0x1000 + b * 0x40 + c, d, 0x40);
    QuotientUnique(a * 0x1000 + b * 0x40 + c, a * 0x40 + b, c, 0x40);
  }

  /** The encoding of a scalar value is a character of the grammar. */
  lemma EncodesChar(v: nat)
    requires Valid(v)
    ensures Utf8Char(Utf8Of(v)) && Value8(Utf8Of(v)) == v
  {
    if 0x7FF < v <= 0xFFFF {
      ThreeDigits(v);
    } else if v > 0xFFFF {
      FourDigits(v);
    }
  }

  lemma ThreeDigits(v: nat)
    requires v <= 0xFFFF
    ensures v == v / 0x1000 * 0x1000 + v / 0x40 % 0x40 * 0x40 + v % 0x40
    ensures v > 0x7FF && v / 0x1000 == 0 ==> v / 0x40 % 0x40 >= 0x20
    ensures v / 0x1000 == 0xD && v / 0x40 % 0x40 >= 0x20 ==> 0xD800 <= v <= 0xDFFF
  {
    DivDiv(v, 0x40, 0x40);
  }

  lemma FourDigits(v: nat)
    requires 0xFFFF < v <= 0x10FFFF
    ensures v == v / 0x4_0000 * 0x4_0000 + v / 0x1000 % 0x40 * 0x1000 + v / 0x40 % 0x40 * 0x40 + v % 0x40
    ensures v / 0x4_0000 == 0 ==> v / 0x1000 % 0x40 >= 0x10
    ensures v / 0x4_0000 == 4 ==> v / 0x1000 % 0x40 <= 0xF
    ensures v / 0x4_0000 <= 4
  {
    DivDiv(v, 0x40, 0x40);
    DivDiv(v, 0x1000, 0x40);
  }

  /** No character of the grammar is a proper prefix of another. */
  lemma FirstIsUnique(s: seq<u8>, k: nat)
    requires 1 <= k <= |s| && Utf8Char(s[..k])
    ensures First8(s) == k
  {
  }

  lemma Unit16(c: seq<u16>)
    requires First16(c) == |c| > 0
    ensures Valid(Value16(c)) && Utf16Of(Value16(c)) == c
  {
  }

  lemma Encodes16(v: nat, rest: seq<u16>)
    requires Valid(v)
    ensures var c := Utf16Of(v); First16(c + rest) == First16(c) == |c| && Value16(c) == v
  {
  }

  // ----------------------------------------------------------- decoding one character, as coded

  lemma AndTimes4(x: nat, y: nat)
    ensures And(x, 4 * y) == 4 * And(x / 4, y)
  {
    AndDouble(x, 2 * y);
    AndDouble(x / 2, y);
  }

  lemma AllOnes(x: nat, n: nat, m: nat)
    requires m == Pow2(n) && x < m
    ensures And(x, m - 1) == x
  {
    AndMask(x, n);
    RemainderUnique(x, 0, x, m);
  }

  lemma AndC0(c: nat)
    requires c < 0x100
    ensures And(c, 0xC0) == 0x40 * (c / 0x40)
  {
    DivDiv(c, 4, 4);
    DivDiv(c, 0x10, 4);
    assert Pow2(2) == 4;
    AllOnes(c / 4 / 4 / 4, 2, 4);
    AndTimes4(c / 4 / 4, 3);
    AndTimes4(c / 4, 0xC);
    AndTimes4(c, 0x30);
  }

  lemma AndE0(c: nat)
    requires c < 0x100
    ensures And(c, 0xE0) == 0x20 * (c / 0x20)
  {
    DivDiv(c, 4, 4);
    DivDiv(c, 0x10, 2);
    assert Pow2(3) == 8;
    AllOnes(c / 4 / 4 / 2, 3, 8);
    AndDouble(c / 4 / 4, 7);
    AndTimes4(c / 4, 0xE);
    AndTimes4(c, 0x38);
  }

  lemma AndF0(c: nat)
    requires c < 0x100
    ensures And(c, 0xF0) == 0x10 * (c / 0x10)
  {
    DivDiv(c, 4, 4);
    assert Pow2(4) == 16;
    AllOnes(c / 4 / 4, 4, 16);
    AndTimes4(c / 4, 0xF);
    AndTimes4(c, 0x3C);
  }

  /** (c & 0xC0) == 0xC0. */
  method AtLeastTwo(c: u8) returns (r: bool)
    ensures r <==> c >= 0xC0
  {
    AndC0(c as nat);
    r := And(c as nat, 0xC0) == 0xC0;
  }

  /** (c & 0xE0) == 0xE0. */
  method AtLeastThree(c: u8) returns (r: bool)
    ensures r <==> c >= 0xE0
  {
    AndE0(c as nat);
    r := And(c as nat, 0xE0) == 0xE0;
  }

  /** (c & 0xF0) == 0xF0. */
  method AtLeastFour(c: u8) returns (r: bool)
    ensures r <==> c >= 0xF0
  {
    AndF0(c as nat);
    r := And(c as nat, 0xF0) == 0xF0;
  }

  /** c & mask for a mask of n ones. */
  method LowBits(c: nat, mask: nat, ghost n: nat) returns (r: nat)
    requires mask + 1 == Pow2(n)
    ensures r == c % (mask + 1)
  {
    AndMask(c, n);
    r := And(c, mask);
  }

  /** high | low, where low lies below the bits of high. */
  method Join(high: nat, low: nat, ghost n: nat, ghost h: nat) returns (v: nat)
    requires low < Pow2(n) && high == h * Pow2(n)
    ensures v == high + low
  {
    RemainderUnique(high, h, 0, Pow2(n));
    OrDisjoint(low, high, n);
    OrSymmetric(low, high);
    v := Or(high, low);
  }

  /** The two switches of `utf8::next`: the checks of the grammar, and the value. */
  method Check8(len: nat, seq0: u8, seq1: u8, seq2: u8, seq3: u8) returns (v: int)
    requires 1 <= len <= 4
    ensures var c := [seq0, seq1, seq2, seq3][..len]; v == if Utf8Char(c) then Value8(c) else ILLEGAL
  {
    ghost var c := [seq0, seq1, seq2, seq3][..len];
    v := ILLEGAL;
    if len == 1 {
      if seq0 > 0x7F { return; }
      v := seq0 as int;
    } else if len == 2 {
      if !(0xC2 <= seq0 <= 0xDF && 0x80 <= seq1 <= 0xBF) { return; }
      v := Value2(seq0 as nat, seq1 as nat);
    } else if len == 3 {
      if seq0 == 0xE0 {
        if !(0xA0 <= seq1 <= 0xBF && 0x80 <= seq2 <= 0xBF) { return; }
      } else if 0xE1 <= seq0 <= 0xEC || seq0 == 0xEE || seq0 == 0xEF {
        if !(0x80 <= seq1 <= 0xBF && 0x80 <= seq2 <= 0xBF) { return; }
      } else if seq0 == 0xED {
        if !(0x80 <= seq1 <= 0x9F && 0x80 <= seq2 <= 0xBF) { return; }
      } else {
        return;
      }
      v := Value3(seq0 as nat, seq1 as nat, seq2 as nat);
    } else {
      if seq0 == 0xF0 {
        if !(0x90 <= seq1 <= 0xBF && 0x80 <= seq2 <= 0xBF && 0x80 <= seq3 <= 0xBF) { return; }
      } else if seq0 == 0xF1 || seq0 == 0xF2 || seq0 == 0xF3 {
        if !(0x80 <= seq1 <= 0xBF && 0x80 <= seq2 <= 0xBF && 0x80 <= seq3 <= 0xBF) { return; }
      } else if seq0 == 0xF4 {
        if !(0x80 <= seq1 <= 0x8F && 0x80 <= seq2 <= 0xBF && 0x80 <= seq3 <= 0xBF) { return; }
      } else {
        return;
      }
      v := Value4(seq0 as nat, seq1 as nat, seq2 as nat, seq3 as nat);
    }
  }

  method Value2(seq0: nat, seq1: nat) returns (v: nat)
    requires 0xC0 <= seq0 < 0xE0 && 0x80 <= seq1 < 0xC0
    ensures v == (seq0 - 0xC0) * 0x40 + (seq1 - 0x80)
  {
    SmallPow2();
    var b0 := LowBits(seq0, 0x1F, 5);
    var b1 := LowBits(seq1, 0x3F, 6);
    v := Join(b0 * 0x40, b1, 6, b0);
  }

  method Value3(seq0: nat, seq1: nat, seq2: nat) returns (v: nat)
    requires 0xE0 <= seq0 < 0xF0 && 0x80 <= seq1 < 0xC0 && 0x80 <= seq2 < 0xC0
    ensures v == (seq0 - 0xE0) * 0x1000 + (seq1 - 0x80) * 0x40 + (seq2 - 0x80)
  {
    SmallPow2();
    TwoTails();
    var b0 := LowBits(seq0, 0x0F, 4);
    var b1 := LowBits(seq1, 0x3F, 6);
    var b2 := LowBits(seq2, 0x3F, 6);
    v := Join(b0 * 0x1000, b1 * 0x40, 12, b0);
    v := Join(v, b2, 6, b0 * 0x40 + b1);
  }

  method Value4(seq0: nat, seq1: nat, seq2: nat, seq3: nat) returns (v: nat)
    requires 0xF0 <= seq0 < 0xF8 && 0x80 <= seq1 < 0xC0 && 0x80 <= seq2 < 0xC0 && 0x80 <= seq3 < 0xC0
    ensures v == (seq0 - 0xF0) * 0x4_0000 + (seq1 - 0x80) * 0x1000 + (seq2 - 0x80) * 0x40 + (seq3 - 0x80)
  {
    SmallPow2();
    TwoTails();
    var b0 := LowBits(seq0, 0x07, 3);
    var b1 := LowBits(seq1, 0x3F, 6);
    var b2 := LowBits(seq2, 0x3F, 6);
    var b3 := LowBits(seq3, 0x3F, 6);
    v := Join(b0 * 0x4_0000, b1 * 0x1000, 18, b0);
    v := Join(v, b2 * 0x40, 12, b0 * 0x40 + b1);
    v := Join(v, b3, 6, b0 * 0x1000 + b1 * 0x40 + b2);
  }

  lemma TwoTails()
    ensures Pow2(6) == 0x40 && Pow2(12) == 0x1000 && Pow2(18) == 0x4_0000
  {
    SmallPow2();
    Pow2Add(6, 6);
    Pow2Add(6, 12);
  }

  /** The length of a character that begins with a given octet, if there is one. */
  ghost function LengthBy(c: u8): nat {
    if c < 0xC0 then 1 else if c < 0xE0 then 2 else if c < 0xF0 then 3 else 4
  }

  /** The first octet decides how long the first character can only be. */
  lemma LeadDecides(t: seq<u8>)
    requires t != []
    ensures var n := LengthBy(t[0]); First8(t) == if n <= |t| && Utf8Char(t[..n]) then n else 0
  {
  }

  /** `utf8::next`: decodes the character at p and moves p behind it. */
  method Next8(s: seq<u8>, p: nat) returns (v: int, q: nat)
    requires p < |s|
    ensures p < q <= |s|
    ensures var k := First8(s[p..]);
            if k == 0 then v == ILLEGAL else q == p + k && v == Value8(s[p..q])
  {
    var c := s[p];
    q := p + 1;
    LeadDecides(s[p..]);
    var seq1: u8, seq2: u8, seq3: u8, len := 0, 0, 0, 1;
    var lead := AtLeastTwo(c);
    if lead {
      if q == |s| { return ILLEGAL, q; }
      seq1 := s[q];
      q, len := q + 1, 2;
    }
    lead := AtLeastThree(c);
    if lead {
      if q == |s| { return ILLEGAL, q; }
      seq2 := s[q];
      q, len := q + 1, 3;
    }
    lead := AtLeastFour(c);
    if lead {
      if q == |s| { return ILLEGAL, q; }
      seq3 := s[q];
      q, len := q + 1, 4;
    }
    v := Check8(len, c, seq1, seq2, seq3);
    assert [c, seq1, seq2, seq3][..len] == s[p..q];
    assert s[p..][..len] == s[p..q];
  }

  /** `utf16::next`. */
  method Next16(w: seq<u16>, p: nat) returns (v: int, q: nat)
    requires p < |w|
    ensures p < q <= |w|
    ensures var k := First16(w[p..]);
            if k == 0 then v == ILLEGAL else q == p + k && First16(w[p..q]) == k && v == Value16(w[p..q])
  {
    var w1 := w[p];
    q := p + 1;
    if w1 < 0xD800 || 0xDFFF < w1 {
      return w1 as int, q;
    }
    if w1 > 0xDBFF {
      return ILLEGAL, q;
    }
    if q == |w| {
      return ILLEGAL, q;
    }
    var w2 := w[q];
    q := q + 1;
    if w2 < 0xDC00 || 0xDFFF < w2 {
      return ILLEGAL, q;
    }
    v := CombineSurrogate(w1, w2);
  }

  /** `utf16::combine_surrogate`. */
  method CombineSurrogate(w1: u16, w2: u16) returns (v: nat)
    requires HighSurrogate(w1) && LowSurrogate(w2)
    ensures v == (w1 as int - 0xD800) * 0x400 + (w2 as int - 0xDC00) + 0x10000
  {
    SmallPow2();
    var high := LowBits(w1 as nat, 0x3FF, 10);
    var low := LowBits(w2 as nat, 0x3FF, 10);
    v := Join(high * 0x400, low, 10, high);
    v := v + 0x10000;
  }

  // --------------------------------------------------------------------------- whole strings

  /** UTF-8 and UTF-16 as encoding forms. */
  const UTF8: Form<u8> := Form(First8, CharValue8, CharOf8)
  const UTF16: Form<u16> := Form(First16, CharValue16, CharOf16)

  function CharValue8(c: seq<u8>): int { if Utf8Char(c) then Value8(c) else 0 }
  function CharOf8(v: int): seq<u8> { if Valid(v) then Utf8Of(v) else [] }
  function CharValue16(c: seq<u16>): int { if First16(c) == |c| > 0 then Value16(c) else 0 }
  function CharOf16(v: int): seq<u16> { if Valid(v) then Utf16Of(v) else [] }

  lemma Utf8Lawful()
    ensures Lawful(UTF8)
  {
    forall s: seq<u8> | First8(s) > 0 ensures ReadsChar(UTF8, s) {
      CharEncodes(s[..First8(s)]);
    }
    forall v: int, rest: seq<u8> | Valid(v) ensures WritesChar(UTF8, v, rest) {
      EncodesChar(v);
      var c := Utf8Of(v);
      assert (c + rest)[..|c|] == c;
      FirstIsUnique(c + rest, |c|);
    }
  }

  lemma Utf16Lawful()
    ensures Lawful(UTF16)
  {
    forall s: seq<u16> | First16(s) > 0 ensures ReadsChar(UTF16, s) {
      Unit16(s[..First16(s)]);
    }
    forall v: int, rest: seq<u16> | Valid(v) ensures WritesChar(UTF16, v, rest) {
      Encodes16(v, rest);
    }
  }

  /** A string has scalar values exactly when the grammar of section 4 of RFC 3629 derives it. */
  lemma {:induction false} GrammarIsDecodable(s: seq<u8>)
    requires Lawful(UTF8)
    ensures Decode(UTF8, s).Some? <==> Utf8Octets(s)
    decreases |s|
  {
    if s != [] {
      var k := First8(s);
      if k > 0 {
        GrammarIsDecodable(s[k..]);
      }
      forall j | 1 <= j <= |s| && Utf8Char(s[..j]) ensures j == k {
        FirstIsUnique(s, j);
      }
    }
  }

  /** Every high surrogate is followed by a low one and every low one follows a high one. */
  ghost predicate Paired(w: seq<u16>) {
    && (forall i :: 0 <= i < |w| && HighSurrogate(w[i]) ==> i + 1 < |w| && LowSurrogate(w[i + 1]))
    && (forall i :: 0 <= i < |w| && LowSurrogate(w[i]) ==> 0 < i && HighSurrogate(w[i - 1]))
  }

  lemma PairedStep(w: seq<u16>)
    requires w != []
    ensures Paired(w) <==> First16(w) > 0 && Paired(w[First16(w)..])
  {
    var k := First16(w);
    if k > 0 {
      var t := w[k..];
      assert forall i :: 0 <= i < |t| ==> t[i] == w[i + k];
      assert forall i :: k <= i < |w| ==> w[i] == t[i - k];
    } else {
      assert HighSurrogate(w[0]) || LowSurrogate(w[0]);
    }
  }

  /** A string of 16-bit units has scalar values exactly when its surrogates are paired. */
  lemma {:induction false} PairedIsDecodable(w: seq<u16>)
    requires Lawful(UTF16)
    ensures Decode(UTF16, w).Some? <==> Paired(w)
    decreases |w|
  {
    if w != [] {
      PairedStep(w);
      if First16(w) > 0 {
        PairedIsDecodable(w[First16(w)..]);
      }
    }
  }

  /** The UTF-16 form of a UTF-8 string, if it is well formed. */
  ghost function Wide(s: seq<u8>): Option<seq<u16>> {
    Utf8Lawful();
    Transcode(UTF8, UTF16, s)
  }

  /** The UTF-8 form of a UTF-16 string, if it is well formed. */
  ghost function Narrow(w: seq<u16>): Option<seq<u8>> {
    Utf16Lawful();
    Transcode(UTF16, UTF8, w)
  }

  lemma NarrowIffPaired(w: seq<u16>)
    ensures Narrow(w).Some? <==> Paired(w)
  {
    Utf16Lawful();
    PairedIsDecodable(w);
  }

  lemma WideIffGrammar(s: seq<u8>)
    ensures Wide(s).Some? <==> Utf8Octets(s)
  {
    Utf8Lawful();
    GrammarIsDecodable(s);
  }

  /** Narrowing undoes widening, on every string of the grammar. */
  lemma NarrowOfWide(s: seq<u8>)
    requires Utf8Octets(s)
    ensures Wide(s).Some? && Narrow(Wide(s).value) == Some(s)
  {
    Utf8Lawful();
    Utf16Lawful();
    WideIffGrammar(s);
    TranscodeBack(UTF8, UTF16, s);
  }

  /** Widening undoes narrowing, on every string without unpaired surrogates. */
  lemma WideOfNarrow(w: seq<u16>)
    requires Paired(w)
    ensures Narrow(w).Some? && Utf8Octets(Narrow(w).value) && Wide(Narrow(w).value) == Some(w)
  {
    Utf8Lawful();
    Utf16Lawful();
    PairedIsDecodable(w);
    TranscodeBack(UTF16, UTF8, w);
    WideIffGrammar(Narrow(w).value);
  }

  /** One iteration of the loops over UTF-8: decode a character and encode it again. */
  method WideChar(s: seq<u8>, b: nat) returns (codePoint: int, q: nat, sq: seq<u16>)
    requires b < |s|
    ensures b < q <= |s|
    ensures codePoint == ILLEGAL ==> Wide(s[b..]) == None
    ensures codePoint != ILLEGAL ==> Wide(s[b..]) == Prepend(sq, Wide(s[q..]))
  {
    sq := [];
    codePoint, q := Next8(s, b);
    WideStep(s, b, q);
    if codePoint != ILLEGAL {
      sq := Encode16(codePoint);
    }
  }

  /** What the first character contributes. */
  lemma WideStep(s: seq<u8>, b: nat, q: nat)
    requires b < q <= |s| && (First8(s[b..]) > 0 ==> First8(s[b..]) == q - b && Utf8Char(s[b..q]))
    ensures First8(s[b..]) == 0 ==> Wide(s[b..]) == None
    ensures First8(s[b..]) > 0 ==>
      var v := Value8(s[b..q]); Valid(v) && Wide(s[b..]) == Prepend(Utf16Of(v), Wide(s[q..]))
  {
    Utf8Lawful();
    if First8(s[b..]) > 0 {
      TranscodeStep(UTF8, UTF16, s, b, q);
    }
  }

  /** One iteration of the loops over UTF-16. */
  method NarrowChar(w: seq<u16>, b: nat) returns (codePoint: int, q: nat, sq: seq<u8>)
    requires b < |w|
    ensures b < q <= |w|
    ensures codePoint == ILLEGAL ==> Narrow(w[b..]) == None
    ensures codePoint != ILLEGAL ==> Narrow(w[b..]) == Prepend(sq, Narrow(w[q..]))
  {
    sq := [];
    codePoint, q := Next16(w, b);
    NarrowStep(w, b, q);
    if codePoint != ILLEGAL {
      sq := Encode8(codePoint);
    }
  }

  lemma NarrowStep(w: seq<u16>, b: nat, q: nat)
    requires b < q <= |w| && (First16(w[b..]) > 0 ==> First16(w[b..]) == q - b && First16(w[b..q]) == q - b)
    ensures First16(w[b..]) == 0 ==> Narrow(w[b..]) == None
    ensures First16(w[b..]) > 0 ==>
      var v := Value16(w[b..q]); Valid(v) && Narrow(w[b..]) == Prepend(Utf8Of(v), Narrow(w[q..]))
  {
    Utf16Lawful();
    if First16(w[b..]) > 0 {
      TranscodeStep(UTF16, UTF8, w, b, q);
    }
  }

  /** `tosqlwide`: fails exactly on strings outside the grammar. */
  method Tosqlwide(n: seq<u8>) returns (r: Option<seq<u16>>)
    ensures r == Wide(n)
    ensures r.Some? <==> Utf8Octets(n)
  {
    var result: seq<u16>, b, codePoint := [], 0, 0;
    assert n[0..] == n;
    PrependNothing([], Wide(n));
    while b < |n|
      invariant 0 <= b <= |n| && codePoint != ILLEGAL
      invariant Wide(n) == Prepend(result, Wide(n[b..]))
    {
      var q: nat, sq: seq<u16>;
      codePoint, q, sq := WideChar(n, b);
      if codePoint == ILLEGAL {
        b := q;
        break;
      }
      PrependTwice(result, sq, Wide(n[q..]));
      result, b := result + sq, q;
    }
    WideIffGrammar(n);
    if b != |n| || codePoint == ILLEGAL {
      return None;
    }
    PrependNothing(result, None);
    return Some(result);
  }

  /** `narrower` of a string of 16-bit characters: fails exactly on unpaired surrogates. */
  method NarrowerWide(wide: seq<u16>) returns (r: Option<seq<u8>>)
    ensures r == Narrow(wide)
    ensures r.Some? <==> Paired(wide)
  {
    NarrowIffPaired(wide);
    var result: seq<u8>, b, codePoint := [], 0, 0;
    assert wide[0..] == wide;
    PrependNothing([], Narrow(wide));
    while b < |wide|
      invariant 0 <= b <= |wide| && codePoint != ILLEGAL
      invariant Narrow(wide) == Prepend(result, Narrow(wide[b..]))
    {
      var q: nat, sq: seq<u8>;
      codePoint, q, sq := NarrowChar(wide, b);
      if codePoint == ILLEGAL {
        b := q;
        break;
      }
      PrependTwice(result, sq, Narrow(wide[q..]));
      result, b := result + sq, q;
    }
    if b != |wide| || codePoint == ILLEGAL {
      return None;
    }
    PrependNothing(result, None);
    return Some(result);
  }

  // ----------------------------------------------------- wide strings kept as byte strings

  /** The bytes of 16-bit units in memory, low byte first. */
  function UnitBytes(w: seq<u16>): (b: seq<u8>)
    ensures |b| == 2 * |w|
  {
    if w == [] then [] else [(w[0] % 0x100) as u8, (w[0] / 0x100) as u8] + UnitBytes(w[1..])
  }

  /** The 16-bit units that a byte string of even length holds. */
  function BytesUnits(b: seq<u8>): (w: seq<u16>)
    requires |b| % 2 == 0
    ensures |w| == |b| / 2
    decreases |b|
  {
    if b == [] then [] else [b[0] as u16 + 0x100 * b[1] as u16] + BytesUnits(b[2..])
  }

  lemma {:induction false} UnitsOfBytes(w: seq<u16>)
    ensures BytesUnits(UnitBytes(w)) == w
  {
    if w != [] {
      UnitsOfBytes(w[1..]);
      assert UnitBytes(w)[2..] == UnitBytes(w[1..]);
    }
  }

  lemma {:induction false} UnitBytesConcat(u: seq<u16>, v: seq<u16>)
    ensures UnitBytes(u + v) == UnitBytes(u) + UnitBytes(v)
  {
    if u == [] {
      assert u + v == v;
    } else {
      UnitBytesConcat(u[1..], v);
      assert (u + v)[1..] == u[1..] + v;
    }
  }

  /** `widen`: the UTF-16 form as a byte string. */
  method Widen(s: seq<u8>) returns (r: Option<seq<u8>>)
    ensures r.Some? <==> Utf8Octets(s)
    ensures r.Some? ==> Wide(s).Some? && r.value == UnitBytes(Wide(s).value)
  {
    var result: seq<u8>, b, codePoint := [], 0, 0;
    ghost var units: seq<u16> := [];
    assert s[0..] == s;
    PrependNothing([], Wide(s));
    while b < |s|
      invariant 0 <= b <= |s| && codePoint != ILLEGAL
      invariant result == UnitBytes(units)
      invariant Wide(s) == Prepend(units, Wide(s[b..]))
    {
      var q: nat, sq: seq<u16>;
      codePoint, q, sq := WideChar(s, b);
      if codePoint == ILLEGAL {
        b := q;
        break;
      }
      PrependTwice(units, sq, Wide(s[q..]));
      UnitBytesConcat(units, sq);
      result, b, units := result + UnitBytes(sq), q, units + sq;
    }
    WideIffGrammar(s);
    if b != |s| || codePoint == ILLEGAL {
      return None;
    }
    PrependNothing(units, None);
    return Some(result);
  }

  /** `narrower` of a byte string: fails on an odd length and on unpaired surrogates. */
  method NarrowerBytes(wide: seq<u8>) returns (r: Option<seq<u8>>)
    ensures |wide| % 2 != 0 ==> r == None
    ensures |wide| % 2 == 0 ==> r == Narrow(BytesUnits(wide))
  {
    if |wide| % 2 != 0 {
      return None;
    }
    r := NarrowerWide(BytesUnits(wide));
  }

  /** narrower(widen(s)) is s for every string of the grammar, and `widen` rejects all others. */
  method WidenThenNarrow(s: seq<u8>) returns (r: Option<seq<u8>>)
    ensures Utf8Octets(s) ==> r == Some(s)
    ensures !Utf8Octets(s) ==> r == None
  {
    var w := Widen(s);
    if w.None? {
      return None;
    }
    r := NarrowerBytes(w.value);
    NarrowOfWide(s);
    UnitsOfBytes(Wide(s).value);
  }
}

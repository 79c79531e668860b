/** Encoding forms in general: a code for characters that can be read off the front of a string
    makes a code for strings, and transcoding between two such forms can be undone. */
module Transcoding {
  import opened Options

  /** `utf::valid`: a scalar value, that is a code point that is not a surrogate. */
  predicate Valid(v: int) {
    0 <= v <= 0x10FFFF && !(0xD800 <= v <= 0xDFFF)
  }

  ghost predicate AllValid(vs: seq<int>) {
    forall i :: 0 <= i < |vs| ==> Valid(vs[i])
  }

  /** The length of the first character of a string or 0 if there is none, the value of a
      character, and the character of a value. */
  datatype Form<!C> = Form(first: seq<C> -> nat, value: seq<C> -> int, encode: int -> seq<C>)

  ghost predicate Lawful<C(!new)>(f: Form<C>) {
    && (forall s: seq<C> {:trigger f.first(s)} :: f.first(s) <= |s|)
    && (forall s: seq<C> {:trigger f.first(s)} :: f.first(s) > 0 ==> ReadsChar(f, s))
    && (forall v: int, rest: seq<C> {:trigger f.encode(v) + rest} :: Valid(v) ==> WritesChar(f, v, rest))
  }

  /** The first character of s is the encoding of a scalar value. */
  ghost predicate ReadsChar<C>(f: Form<C>, s: seq<C>) {
    var k := f.first(s);
    k <= |s| && Valid(f.value(s[..k])) && f.encode(f.value(s[..k])) == s[..k]
  }

  /** The encoding of v is recognized at the front of any string. */
  ghost predicate WritesChar<C>(f: Form<C>, v: int, rest: seq<C>) {
    f.encode(v) != [] && f.first(f.encode(v) + rest) == |f.encode(v)| && f.value(f.encode(v)) == v
  }

  /** The scalar values of a string, if it is well formed. */
  ghost function Decode<C(!new)>(f: Form<C>, s: seq<C>): Option<seq<int>>
    requires Lawful(f)
    decreases |s|
  {
    if s == [] then Some([])
    else
      var k := f.first(s);
      if k == 0 then None
      else match Decode(f, s[k..]) case None => None case Some(vs) => Some([f.value(s[..k])] + vs)
  }

  /** The string of a sequence of scalar values. */
  ghost function Text<C>(f: Form<C>, vs: seq<int>): seq<C> {
    if vs == [] then [] else f.encode(vs[0]) + Text(f, vs[1..])
  }

  /** Decoding a string and encoding its values gives the string back. */
  lemma {:induction false} TextOfDecode<C(!new)>(f: Form<C>, s: seq<C>)
    requires Lawful(f) && Decode(f, s).Some?
    ensures AllValid(Decode(f, s).value) && Text(f, Decode(f, s).value) == s
    decreases |s|
  {
    if s != [] {
      var k := f.first(s);
      TextOfDecode(f, s[k..]);
      assert ReadsChar(f, s);
      assert s == s[..k] + s[k..];
    }
  }

  /** Encoding values and decoding the string gives the values back. */
  lemma {:induction false} DecodeOfText<C(!new)>(f: Form<C>, vs: seq<int>)
    requires Lawful(f) && AllValid(vs)
    ensures Decode(f, Text(f, vs)) == Some(vs)
  {
    if vs != [] {
      DecodeOfText(f, vs[1..]);
      var c, rest := f.encode(vs[0]), Text(f, vs[1..]);
      var text := c + rest;
      assert Valid(vs[0]) && WritesChar(f, vs[0], rest);
      assert text[..|c|] == c && text[|c|..] == rest;
      assert vs == [vs[0]] + vs[1..];
    }
  }

  /** From one form to another, if the string is well formed. */
  ghost function Transcode<C(!new), D>(f: Form<C>, g: Form<D>, s: seq<C>): Option<seq<D>>
    requires Lawful(f)
  {
    match Decode(f, s) case None => None case Some(vs) => Some(Text(g, vs))
  }

  /** Transcoding back undoes transcoding, on every string that can be transcoded. */
  lemma TranscodeBack<C(!new), D(!new)>(f: Form<C>, g: Form<D>, s: seq<C>)
    requires Lawful(f) && Lawful(g) && Decode(f, s).Some?
    ensures Transcode(f, g, s).Some? && Transcode(g, f, Transcode(f, g, s).value) == Some(s)
  {
    TextOfDecode(f, s);
    DecodeOfText(g, Decode(f, s).value);
  }

  // --------------------------------------------------------- transcoding character by character

  /** p in front of a result, if there is one. */
  ghost function Prepend<T>(p: seq<T>, r: Option<seq<T>>): Option<seq<T>> {
    match r case None => None case Some(t) => Some(p + t)
  }

  lemma PrependTwice<T>(p: seq<T>, q: seq<T>, r: Option<seq<T>>)
    ensures Prepend(p, Prepend(q, r)) == Prepend(p + q, r)
  {
    if r.Some? { assert p + (q + r.value) == p + q + r.value; }
  }

  lemma PrependNothing<T>(p: seq<T>, r: Option<seq<T>>)
    ensures Prepend([], r) == r && Prepend(p, Some([])) == Some(p)
  {
    if r.Some? { assert [] + r.value == r.value; }
    assert p + [] == p;
  }

  /** One character more at the front of what is left. */
  lemma TranscodeStep<C(!new), D>(f: Form<C>, g: Form<D>, s: seq<C>, p: nat, q: nat)
    requires Lawful(f) && p < q <= |s| && f.first(s[p..]) == q - p
    ensures Valid(f.value(s[p..q]))
    ensures Transcode(f, g, s[p..]) == Prepend(g.encode(f.value(s[p..q])), Transcode(f, g, s[q..]))
  {
    assert ReadsChar(f, s[p..]);
    assert s[p..][..q - p] == s[p..q] && s[p..][q - p..] == s[q..];
    if Decode(f, s[q..]).Some? {
      var vs := Decode(f, s[q..]).value;
      assert ([f.value(s[p..q])] + vs)[1..] == vs;
    }
  }
}

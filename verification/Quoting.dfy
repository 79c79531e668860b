/** Trimming and quoting: texts without the blanks around them, values with their quotes doubled, and
    where in a text another occurs. */
module Quoting {
  import opened Options

  // --------------------------------------------------------------------- blanks and trimming

  predicate IsBlank(c: char) {
    c == ' ' || c == '\t' || c == '\r' || c == '\n' || c == '\U{000C}'
  }

  /** The position of the first character from p on that is not blank, or the end. */
  function SkipBlanks(s: string, p: nat): (q: nat)
    requires p <= |s|
    ensures p <= q <= |s| && (q < |s| ==> !IsBlank(s[q])) && forall i :: p <= i < q ==> IsBlank(s[i])
    decreases |s| - p
  {
    if p < |s| && IsBlank(s[p]) then SkipBlanks(s, p + 1) else p
  }

  /** The end of the text between a and e without the blanks at its end. */
  function TrimEnd(s: string, a: nat, e: nat): (r: nat)
    requires a <= e <= |s|
    ensures a <= r <= e && (r > a ==> !IsBlank(s[r - 1])) && forall i :: r <= i < e ==> IsBlank(s[i])
  {
    if e > a && IsBlank(s[e - 1]) then TrimEnd(s, a, e - 1) else e
  }

  /** A text without the blanks at its ends. */
  function Trimmed(s: string): string {
    var a := SkipBlanks(s, 0);
    s[a..TrimEnd(s, a, |s|)]
  }

  ghost predicate Blank(t: string) {
    forall i :: 0 <= i < |t| ==> IsBlank(t[i])
  }

  /** A text that neither begins nor ends with a blank. */
  ghost predicate Bare(t: string) {
    t != "" ==> !IsBlank(t[0]) && !IsBlank(t[|t| - 1])
  }

  /** A text is another that is bare, with blanks around it. */
  ghost predicate Surrounds(s: string, a: string, v: string, b: string) {
    Blank(a) && Blank(b) && Bare(v) && s == a + v + b
  }

  ghost predicate IsTrimmed(s: string, v: string) {
    exists a, b :: Surrounds(s, a, v, b)
  }

  lemma TrimmedAround(s: string, a: string, v: string, b: string)
    requires Surrounds(s, a, v, b)
    ensures Trimmed(s) == v
  {
    assert forall i :: 0 <= i < |a| ==> s[i] == a[i];
    assert forall i :: |a| + |v| <= i < |s| ==> s[i] == b[i - |a| - |v|];
    if v != "" {
      assert s[|a|] == v[0] && s[|a| + |v| - 1] == v[|v| - 1];
    }
  }

  lemma BlankSlice(s: string, a: nat, b: nat)
    requires a <= b <= |s| && forall i :: a <= i < b ==> IsBlank(s[i])
    ensures Blank(s[a..b])
  {
  }

  lemma CutSurrounds(s: string, p: nat, e: nat)
    requires p <= e <= |s| && (forall i :: 0 <= i < p ==> IsBlank(s[i])) && (forall i :: e <= i < |s| ==> IsBlank(s[i]))
    requires p < e ==> !IsBlank(s[p]) && !IsBlank(s[e - 1])
    ensures Surrounds(s, s[..p], s[p..e], s[e..])
  {
    var v := s[p..e];
    BlankSlice(s, 0, p);
    BlankSlice(s, e, |s|);
    assert p < e ==> v[0] == s[p] && v[|v| - 1] == s[e - 1];
    assert s == s[..p] + v + s[e..];
  }

  lemma TrimmedFound(s: string) returns (a: string, b: string)
    ensures Surrounds(s, a, Trimmed(s), b)
  {
    var p := SkipBlanks(s, 0);
    var e := TrimEnd(s, p, |s|);
    a, b := s[..p], s[e..];
    CutSurrounds(s, p, e);
  }

  /** What trimming gives: the one text that is bare and, with blanks around it, is the given one. */
  lemma TrimmedIff(s: string, v: string)
    ensures Trimmed(s) == v <==> IsTrimmed(s, v)
  {
    var a, b := TrimmedFound(s);
    forall c, d | Surrounds(s, c, v, d) ensures Trimmed(s) == v {
      TrimmedAround(s, c, v, d);
    }
  }

  method Trim(s: string) returns (r: string)
    ensures r == Trimmed(s) && IsTrimmed(s, r)
  {
    TrimmedIff(s, Trimmed(s));
    if s == "" {
      return s;
    }
    var start, end := 0, |s| - 1;
    while start < |s| && IsBlank(s[start])
      invariant start <= |s| && SkipBlanks(s, start) == SkipBlanks(s, 0)
    {
      start := start + 1;
    }
    while end > start && IsBlank(s[end])
      invariant 0 <= end < |s| && start <= end + 1 && (start <= end || start == |s|)
      invariant TrimEnd(s, start, end + 1) == TrimEnd(s, start, |s|)
    {
      end := end - 1;
    }
    r := s[start..end + 1];
  }

  // ----------------------------------------------------------------------------- quoting

  /** A character, doubled if it is a quote. */
  ghost function EscapedChar(c: char): string {
    if c == '\'' then "''" else [c]
  }

  /** A value from position i on, with its quotes doubled. */
  ghost function EscapedFrom(v: string, i: nat): string
    requires i <= |v|
    decreases |v| - i
  {
    if i == |v| then "" else EscapedChar(v[i]) + EscapedFrom(v, i + 1)
  }

  ghost function Escaped(v: string): string {
    EscapedFrom(v, 0)
  }

  lemma EscapeStep(r: string, v: string, i: nat)
    requires i < |v|
    ensures r + EscapedFrom(v, i) == r + EscapedChar(v[i]) + EscapedFrom(v, i + 1)
  {
    var c, rest := EscapedChar(v[i]), EscapedFrom(v, i + 1);
    assert r + (c + rest) == r + c + rest;
  }

  /** The quote doubling of the SQLite driver. */
  method Escape(v: string) returns (r: string)
    ensures r == Escaped(v)
  {
    r := "";
    for i := 0 to |v|
      invariant r + EscapedFrom(v, i) == Escaped(v)
    {
      EscapeStep(r, v, i);
      if v[i] == '\'' {
        r := r + "''";
      } else {
        r := r + [v[i]];
      }
    }
  }

  /** A quoted value, from after its opening quote: the value and the position after its closing
      quote; nothing if there is no closing quote. */
  ghost function Unquoted(s: string, p: nat): (r: Option<(string, nat)>)
    requires p <= |s|
    ensures r.Some? ==> p < r.value.1 <= |s|
    decreases |s| - p
  {
    if p == |s| then None
    else if s[p] != '\'' then Prefixed([s[p]], Unquoted(s, p + 1))
    else if p + 1 < |s| && s[p + 1] == '\'' then Prefixed("'", Unquoted(s, p + 2))
    else Some(("", p + 1))
  }

  ghost function Prefixed(v: string, r: Option<(string, nat)>): Option<(string, nat)> {
    if r.Some? then Some((v + r.value.0, r.value.1)) else None
  }

  /** A text, from its position j on, occurs at a position. */
  ghost predicate OccursFrom(s: string, p: nat, t: string, j: nat)
    requires j <= |t|
    decreases |t| - j
  {
    if j == |t| then p <= |s| else p < |s| && s[p] == t[j] && OccursFrom(s, p + 1, t, j + 1)
  }

  /** A text occurs at a position. */
  ghost predicate At(s: string, p: nat, t: string) {
    OccursFrom(s, p, t, 0)
  }

  /** A text that is put together occurs part after part. */
  lemma AtSplit(s: string, p: nat, a: string, b: string)
    requires At(s, p, a + b)
    ensures At(s, p, a) && At(s, p + |a|, b)
  {
    SplitFrom(s, p, a, b, 0);
  }

  lemma {:induction false} SplitFrom(s: string, p: nat, a: string, b: string, j: nat)
    requires j <= |a| && OccursFrom(s, p, a + b, j)
    ensures OccursFrom(s, p, a, j) && OccursFrom(s, p + |a| - j, b, 0)
    decreases |a| - j
  {
    if j == |a| {
      SecondPart(s, p, a, b, 0);
    } else {
      SplitFrom(s, p + 1, a, b, j + 1);
    }
  }

  lemma {:induction false} SecondPart(s: string, p: nat, a: string, b: string, j: nat)
    requires j <= |b| && OccursFrom(s, p, a + b, |a| + j)
    ensures OccursFrom(s, p, b, j) && p <= |s|
    decreases |b| - j
  {
    if j < |b| {
      SecondPart(s, p + 1, a, b, j + 1);
    }
  }

  /** Where a text occurs, it can be cut out. */
  lemma {:induction false} AtSlice(s: string, p: nat, t: string, j: nat)
    requires j <= |t| && OccursFrom(s, p, t, j)
    ensures p + |t| - j <= |s| && s[p..p + |t| - j] == t[j..]
    decreases |t| - j
  {
    if j < |t| {
      AtSlice(s, p + 1, t, j + 1);
      assert s[p..p + |t| - j] == [s[p]] + s[p + 1..p + |t| - j];
    }
  }

  lemma {:induction false} SliceAt(s: string, p: nat, t: string, j: nat)
    requires j <= |t| && p + |t| - j <= |s| && s[p..p + |t| - j] == t[j..]
    ensures OccursFrom(s, p, t, j)
    decreases |t| - j
  {
    if j < |t| {
      assert s[p] == s[p..p + |t| - j][0] == t[j];
      assert s[p + 1..p + |t| - j] == s[p..p + |t| - j][1..] == t[j + 1..];
      SliceAt(s, p + 1, t, j + 1);
    }
  }

  /** A text occurs at a position exactly if it can be cut out there. */
  lemma AtIff(s: string, p: nat, t: string)
    ensures At(s, p, t) <==> p + |t| <= |s| && s[p..p + |t|] == t
  {
    assert t[0..] == t;
    if At(s, p, t) {
      AtSlice(s, p, t, 0);
    }
    if p + |t| <= |s| && s[p..p + |t|] == t {
      SliceAt(s, p, t, 0);
    }
  }

  /** Texts that occur one after the other occur put together. */
  lemma AtJoin(s: string, p: nat, a: string, b: string)
    requires At(s, p, a) && At(s, p + |a|, b)
    ensures At(s, p, a + b)
  {
    AtIff(s, p, a);
    AtIff(s, p + |a|, b);
    assert s[p..p + |a + b|] == s[p..p + |a|] + s[p + |a|..p + |a| + |b|];
    AtIff(s, p, a + b);
  }

  /** A text occurs where it is put. */
  lemma {:induction false} AtConcat(a: string, t: string, j: nat)
    requires j <= |t|
    ensures OccursFrom(a + t, |a| + j, t, j)
    decreases |t| - j
  {
    if j < |t| {
      AtConcat(a, t, j + 1);
    }
  }

  /** Reading an escaped value that ends in a single quote gives the value. */
  lemma {:induction false} UnquotedEscaped(s: string, p: nat, v: string, i: nat)
    requires i <= |v| && At(s, p, EscapedFrom(v, i))
    requires var e := p + |EscapedFrom(v, i)|; e < |s| && s[e] == '\'' && (e + 1 < |s| ==> s[e + 1] != '\'')
    ensures Unquoted(s, p) == Some((v[i..], p + |EscapedFrom(v, i)| + 1))
    decreases |v| - i
  {
    if i == |v| {
      assert v[i..] == "";
    } else {
      if v[i] == '\'' {
        AtSplit(s, p, "''", EscapedFrom(v, i + 1));
        UnquotedEscaped(s, p + 2, v, i + 1);
        assert v[i..] == "'" + v[i + 1..];
      } else {
        AtSplit(s, p, [v[i]], EscapedFrom(v, i + 1));
        UnquotedEscaped(s, p + 1, v, i + 1);
        assert v[i..] == [v[i]] + v[i + 1..];
      }
    }
  }

  /** What is read as a quoted value is an escaped value that ends in a single quote. */
  lemma {:induction false} EscapedFound(s: string, p: nat, v: string, e: nat)
    requires p <= |s| && Unquoted(s, p) == Some((v, e))
    ensures At(s, p, Escaped(v) + "'") && e == p + |Escaped(v)| + 1 && (e < |s| ==> s[e] != '\'')
    decreases |s| - p
  {
    if s[p] == '\'' && !(p + 1 < |s| && s[p + 1] == '\'') {
      assert Escaped(v) + "'" == "'";
    } else {
      var c, n := s[p], if s[p] == '\'' then p + 2 else p + 1;
      var w := Unquoted(s, n).value.0;
      EscapedFound(s, n, w, e);
      EscapedMore(c, w);
      assert v == [c] + w;
      EscapedOne(s, p, c);
      AtJoin(s, p, EscapedChar(c), Escaped(w) + "'");
      assert Escaped(v) + "'" == EscapedChar(c) + (Escaped(w) + "'");
    }
  }

  /** What is no quoted value, for want of a closing quote, is an escaped value up to the end. */
  lemma {:induction false} OpenFound(s: string, p: nat) returns (v: string)
    requires p <= |s| && Unquoted(s, p) == None
    ensures At(s, p, Escaped(v)) && p + |Escaped(v)| == |s|
    decreases |s| - p
  {
    if p == |s| {
      v := "";
    } else {
      var c, n := s[p], if s[p] == '\'' then p + 2 else p + 1;
      var w := OpenFound(s, n);
      v := [c] + w;
      EscapedMore(c, w);
      EscapedOne(s, p, c);
      AtJoin(s, p, EscapedChar(c), Escaped(w));
    }
  }

  lemma EscapedOne(s: string, p: nat, c: char)
    requires p < |s| && s[p] == c && (c == '\'' ==> p + 1 < |s| && s[p + 1] == c)
    ensures At(s, p, EscapedChar(c))
  {
    AtIff(s, p, EscapedChar(c));
  }

  lemma EscapedMore(c: char, w: string)
    ensures Escaped([c] + w) == EscapedChar(c) + Escaped(w)
  {
    var v := [c] + w;
    EscapedShift(v, w, 0);
  }

  lemma {:induction false} EscapedShift(v: string, w: string, i: nat)
    requires |v| == |w| + 1 && v[1..] == w && i <= |w|
    ensures EscapedFrom(v, i + 1) == EscapedFrom(w, i)
    decreases |w| - i
  {
    if i < |w| {
      assert v[i + 1] == v[1..][i] == w[i];
      EscapedShift(v, w, i + 1);
    }
  }

  /** An escaped value up to the end of the text is no quoted value. */
  lemma {:induction false} UnquotedOpen(s: string, p: nat, v: string, i: nat)
    requires i <= |v| && At(s, p, EscapedFrom(v, i)) && p + |EscapedFrom(v, i)| == |s|
    ensures Unquoted(s, p) == None
    decreases |v| - i
  {
    if i < |v| {
      if v[i] == '\'' {
        AtSplit(s, p, "''", EscapedFrom(v, i + 1));
        UnquotedOpen(s, p + 2, v, i + 1);
      } else {
        AtSplit(s, p, [v[i]], EscapedFrom(v, i + 1));
        UnquotedOpen(s, p + 1, v, i + 1);
      }
    }
  }

  /** No two values have the same escaped text. */
  lemma EscapedInjective(v: string, w: string)
    requires Escaped(v) == Escaped(w)
    ensures v == w
  {
    var s := Escaped(v) + "'";
    AtConcat("", s, 0);
    assert "" + s == s;
    AtSplit(s, 0, Escaped(v), "'");
    UnquotedEscaped(s, 0, v, 0);
    UnquotedEscaped(s, 0, w, 0);
    assert v[0..] == v && w[0..] == w;
  }
}

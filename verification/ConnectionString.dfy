/** Connection strings: the driver and the properties of a database connection in one line of text,
    with values that are quoted or plain. */
module ConnectionString {
  import opened Options
  import opened Quoting

  // ------------------------------------------------------------ the text, as it is understood

  /** The result of parsing.  `Looping` is a parser that is still in the loop after a property. */
  datatype Parsed<+T> = Ok(value: T) | NoDriver | BadProperty | Unterminated | DuplicateKey | Looping

  type Params = map<string, string>

  /** The position of a character from p on, or the length if it does not occur. */
  function Find(s: string, c: char, p: nat): (n: nat)
    requires p <= |s|
    ensures p <= n <= |s| && (n < |s| ==> s[n] == c) && forall i :: p <= i < n ==> s[i] != c
    decreases |s| - p
  {
    if p == |s| || s[p] == c then p else Find(s, c, p + 1)
  }

  /** The value of a property and the position after it. */
  ghost function Value(s: string, p: nat): (r: Parsed<(string, nat)>)
    requires p <= |s|
    ensures r.Ok? ==> p <= r.value.1 <= |s|
  {
    var q := SkipBlanks(s, p);
    if q == |s| then Ok(("", q))
    else if s[q] == '\'' then
      var r := Unquoted(s, q + 1);
      if r.Some? then Ok(r.value) else Unterminated
    else Ok((Trimmed(s[q..Find(s, ';', q)]), Find(s, ';', q)))
  }

  // ------------------------------------------------------------------- values as they are written

  /** A value that can be written without quotes. */
  ghost predicate IsPlain(v: string) {
    Bare(v) && ';' !in v && (v != "" ==> v[0] != '\'')
  }

  ghost function Written(v: string, quoted: bool): string {
    if quoted then "'" + Escaped(v) + "'" else v
  }

  /** A value, after blanks, ends at e: after its closing quote, or at the semicolon or the end of the
      text, which blanks may precede. */
  ghost predicate ValueAt(s: string, p: nat, lead: string, v: string, quoted: bool, trail: string, e: nat) {
    && Blank(lead) && Blank(trail)
    && At(s, p, lead + (Written(v, quoted) + trail)) && e == p + |lead| + |Written(v, quoted)| + |trail|
    && if quoted then trail == "" && (e < |s| ==> s[e] != '\'') else IsPlain(v) && (e < |s| ==> s[e] == ';')
  }

  ghost predicate IsValue(s: string, p: nat, v: string, e: nat) {
    exists lead, quoted, trail :: ValueAt(s, p, lead, v, quoted, trail, e)
  }

  /** After blanks there is a quote and then, up to the end of the text, no quote that closes it. */
  ghost predicate OpenAt(s: string, p: nat, lead: string, v: string) {
    Blank(lead) && At(s, p, lead + ("'" + Escaped(v))) && p + |lead| + 1 + |Escaped(v)| == |s|
  }

  ghost predicate IsOpen(s: string, p: nat) {
    exists lead, v :: OpenAt(s, p, lead, v)
  }

  lemma SkipsBlanks(s: string, p: nat, lead: string)
    requires Blank(lead) && At(s, p, lead) && (p + |lead| < |s| ==> !IsBlank(s[p + |lead|]))
    ensures p + |lead| <= |s| && SkipBlanks(s, p) == p + |lead|
  {
    AtIff(s, p, lead);
    assert forall i :: p <= i < p + |lead| ==> s[i] == s[p..p + |lead|][i - p];
    assert forall i :: p <= i < p + |lead| ==> IsBlank(s[i]);
  }

  /** A quoted value without blanks before it is read. */
  lemma ValuePrinted(s: string, p: nat, v: string)
    requires At(s, p, "'" + Escaped(v) + "'")
    requires var e := p + |Escaped(v)| + 2; e < |s| ==> s[e] != '\''
    ensures Value(s, p) == Ok((v, p + |Escaped(v)| + 2))
  {
    AtSplit(s, p, "'" + Escaped(v), "'");
    AtSplit(s, p, "'", Escaped(v));
    UnquotedEscaped(s, p + 1, v, 0);
    assert v[0..] == v;
  }

  /** Blanks before a value are passed. */
  lemma ValueAfter(s: string, p: nat, lead: string, t: string)
    requires Blank(lead) && At(s, p, lead + t)
    requires p + |lead| < |s| ==> !IsBlank(s[p + |lead|])
    ensures At(s, p + |lead|, t) && p + |lead| <= |s| && Value(s, p) == Value(s, p + |lead|)
  {
    AtSplit(s, p, lead, t);
    SkipsBlanks(s, p, lead);
  }

  lemma FindEnd(s: string, c: char, p: nat, n: nat)
    requires p <= n <= |s| && (n < |s| ==> s[n] == c) && forall i :: p <= i < n ==> s[i] != c
    ensures Find(s, c, p) == n
  {
  }

  lemma PlainSlice(s: string, p: nat, v: string, trail: string, e: nat)
    requires v != "" && ';' !in v && Blank(trail) && At(s, p, v + trail) && e == p + |v| + |trail|
    ensures e <= |s| && s[p..e] == v + trail && s[p] == v[0] && forall i :: p <= i < e ==> s[i] != ';'
  {
    AtIff(s, p, v + trail);
    var t := s[p..e];
    assert t[0] == v[0];
    assert forall i :: 0 <= i < |t| ==> t[i] == (v + trail)[i] != ';';
    assert forall i :: p <= i < e ==> s[i] == t[i - p];
  }

  /** A plain value without blanks before it is read. */
  lemma PlainPrinted(s: string, p: nat, v: string, trail: string)
    requires v != "" && IsPlain(v) && Blank(trail) && At(s, p, v + trail)
    requires var e := p + |v| + |trail|; e < |s| ==> s[e] == ';'
    ensures Value(s, p) == Ok((v, p + |v| + |trail|))
  {
    var e := p + |v| + |trail|;
    PlainSlice(s, p, v, trail, e);
    FindEnd(s, ';', p, e);
    TrimmedBefore(v, trail);
    PlainValue(s, p, v, e);
  }

  lemma TrimmedBefore(v: string, trail: string)
    requires Bare(v) && Blank(trail)
    ensures Trimmed(v + trail) == v
  {
    assert "" + v + trail == v + trail;
    TrimmedAround(v + trail, "", v, trail);
  }

  lemma PlainValue(s: string, p: nat, v: string, e: nat)
    requires p < |s| && !IsBlank(s[p]) && s[p] != '\'' && Find(s, ';', p) == e && Trimmed(s[p..e]) == v
    ensures Value(s, p) == Ok((v, e))
  {
  }

  /** Nothing but blanks is read as the empty value. */
  lemma EmptyPrinted(s: string, p: nat, blanks: string)
    requires Blank(blanks) && At(s, p, blanks) && (p + |blanks| < |s| ==> s[p + |blanks|] == ';')
    ensures p <= |s| && Value(s, p) == Ok(("", p + |blanks|))
  {
    SkipsBlanks(s, p, blanks);
    var q := p + |blanks|;
    if q < |s| {
      FindEnd(s, ';', q, q);
    }
  }

  lemma ValueRead(s: string, p: nat, lead: string, v: string, quoted: bool, trail: string, e: nat)
    requires ValueAt(s, p, lead, v, quoted, trail, e)
    ensures p <= |s| && Value(s, p) == Ok((v, e))
  {
    if quoted {
      assert Written(v, quoted) + trail == "'" + Escaped(v) + "'";
      QuotedRead(s, p, lead, v, e);
    } else if v == "" {
      assert v + trail == trail;
      EmptyRead(s, p, lead, trail, e);
    } else {
      PlainRead(s, p, lead, v, trail, e);
    }
  }

  lemma EmptyRead(s: string, p: nat, lead: string, trail: string, e: nat)
    requires Blank(lead) && Blank(trail) && At(s, p, lead + trail) && e == p + |lead| + |trail| && (e < |s| ==> s[e] == ';')
    ensures p <= |s| && Value(s, p) == Ok(("", e))
  {
    var blanks := lead + trail;
    assert Blank(blanks);
    EmptyPrinted(s, p, blanks);
  }

  lemma PlainRead(s: string, p: nat, lead: string, v: string, trail: string, e: nat)
    requires Blank(lead) && Blank(trail) && v != "" && IsPlain(v)
    requires At(s, p, lead + (v + trail)) && e == p + |lead| + |v| + |trail| && (e < |s| ==> s[e] == ';')
    ensures p <= |s| && Value(s, p) == Ok((v, e))
  {
    FirstAt(s, p, lead, v + trail);
    ValueAfter(s, p, lead, v + trail);
    PlainPrinted(s, p + |lead|, v, trail);
  }

  lemma QuotedRead(s: string, p: nat, lead: string, v: string, e: nat)
    requires Blank(lead) && At(s, p, lead + ("'" + Escaped(v) + "'")) && e == p + |lead| + |Escaped(v)| + 2
    requires e < |s| ==> s[e] != '\''
    ensures p <= |s| && Value(s, p) == Ok((v, e))
  {
    var t := "'" + Escaped(v) + "'";
    assert t[0] == '\'';
    FirstAt(s, p, lead, t);
    ValueAfter(s, p, lead, t);
    ValuePrinted(s, p + |lead|, v);
  }

  lemma FirstAt(s: string, p: nat, lead: string, t: string)
    requires At(s, p, lead + t) && t != ""
    ensures p + |lead| < |s| && s[p + |lead|] == t[0]
  {
    var q := p + |lead|;
    AtSplit(s, p, lead, t);
    AtIff(s, q, t);
    assert s[q] == s[q..q + |t|][0];
  }

  lemma OpenRead(s: string, p: nat, lead: string, v: string)
    requires OpenAt(s, p, lead, v)
    ensures p <= |s| && Value(s, p) == Unterminated
  {
    var q := p + |lead|;
    AtSplit(s, p, lead, "'" + Escaped(v));
    AtSplit(s, q, "'", Escaped(v));
    ValueAfter(s, p, lead, "'" + Escaped(v));
    UnquotedOpen(s, q + 1, v, 0);
  }

  /** The blanks at a position. */
  lemma LeadFound(s: string, p: nat) returns (lead: string)
    requires p <= |s|
    ensures Blank(lead) && At(s, p, lead) && p + |lead| == SkipBlanks(s, p)
  {
    lead := s[p..SkipBlanks(s, p)];
    AtIff(s, p, lead);
  }

  /** A text that does not begin with a blank is trimmed at its end only. */
  lemma TrailFound(t: string) returns (trail: string)
    requires t != "" ==> !IsBlank(t[0])
    ensures Blank(trail) && t == Trimmed(t) + trail && Bare(Trimmed(t)) && Trimmed(t) <= t
  {
    var e := TrimEnd(t, 0, |t|);
    trail := t[e..];
  }

  /** A value that is read without quotes is written there. */
  lemma PlainFound(s: string, p: nat) returns (trail: string)
    requires p < |s| && !IsBlank(s[p]) && s[p] != '\''
    ensures var n := Find(s, ';', p); var v := Trimmed(s[p..n]);
            IsPlain(v) && Blank(trail) && At(s, p, v + trail) && n == p + |v| + |trail|
  {
    var n := Find(s, ';', p);
    var t := s[p..n];
    trail := TrailFound(t);
    assert forall i :: 0 <= i < |t| ==> t[i] != ';';
    AtIff(s, p, t);
  }

  lemma ValueFound(s: string, p: nat) returns (lead: string, v: string, quoted: bool, trail: string)
    requires p <= |s|
    ensures if Value(s, p).Ok? then v == Value(s, p).value.0 && ValueAt(s, p, lead, v, quoted, trail, Value(s, p).value.1)
            else Value(s, p) == Unterminated && OpenAt(s, p, lead, v)
  {
    lead := LeadFound(s, p);
    var q := SkipBlanks(s, p);
    if q == |s| {
      v, quoted, trail := "", false, "";
      assert lead + (v + trail) == lead;
    } else if s[q] == '\'' {
      quoted, trail := true, "";
      AtIff(s, q, "'");
      var r := Unquoted(s, q + 1);
      if r.Some? {
        v := r.value.0;
        EscapedFound(s, q + 1, v, r.value.1);
        AtJoin(s, q, "'", Escaped(v) + "'");
        assert "'" + (Escaped(v) + "'") == Written(v, true) + "";
        AtJoin(s, p, lead, Written(v, true) + "");
      } else {
        v := OpenFound(s, q + 1);
        AtJoin(s, q, "'", Escaped(v));
        AtJoin(s, p, lead, "'" + Escaped(v));
      }
    } else {
      quoted := false;
      trail := PlainFound(s, q);
      v := Trimmed(s[q..Find(s, ';', q)]);
      AtJoin(s, p, lead, v + trail);
    }
  }

  /** Exactly the values that are written at a position are read there, and an error is given exactly
      for a quote that is never closed. */
  lemma ValueIff(s: string, p: nat, v: string, e: nat)
    requires p <= |s|
    ensures Value(s, p) == Ok((v, e)) <==> IsValue(s, p, v, e)
    ensures Value(s, p) == Unterminated <==> IsOpen(s, p)
  {
    var lead, w, quoted, trail := ValueFound(s, p);
    forall a, q, b | ValueAt(s, p, a, v, q, b, e) ensures Value(s, p) == Ok((v, e)) {
      ValueRead(s, p, a, v, q, b, e);
    }
    forall a, u | OpenAt(s, p, a, u) ensures Value(s, p) == Unterminated {
      OpenRead(s, p, a, u);
    }
  }

  // ------------------------------------------------------------- the loop after a property

  /** Where the loop is: it goes on at a position, or has been left at one. */
  datatype Loop = Turning(p: nat) | Left(p: nat)

  /** One turn of the loop.  It ends at the end of the text and after a semicolon; a blank is passed,
      and at any other character nothing changes. */
  function Turn(s: string, p: nat): (l: Loop)
    requires p <= |s|
    ensures p <= l.p <= |s|
  {
    if p == |s| then Left(p) else if IsBlank(s[p]) then Turning(p + 1) else if s[p] == ';' then Left(p + 1) else Turning(p)
  }

  /** The loop after some turns. */
  ghost function Turns(s: string, p: nat, n: nat): (l: Loop)
    requires p <= |s|
    ensures p <= l.p <= |s|
  {
    if n == 0 then Turning(p)
    else
      match Turns(s, p, n - 1)
      case Left(q) => Left(q)
      case Turning(q) => Turn(s, q)
  }

  /** Some number of turns leaves the loop at q. */
  ghost predicate Leaves(s: string, p: nat, q: nat)
    requires p <= |s|
  {
    exists n: nat :: Turns(s, p, n) == Left(q)
  }

  /** No number of turns leaves the loop. */
  ghost predicate Spins(s: string, p: nat)
    requires p <= |s|
  {
    forall n: nat :: Turns(s, p, n).Turning?
  }

  /** The position after the end of a property, if the first character that is not blank ends it. */
  ghost function AfterEnd(s: string, p: nat): (r: Parsed<nat>)
    requires p <= |s|
    ensures r.Ok? ==> p <= r.value <= |s|
  {
    var q := SkipBlanks(s, p);
    if q == |s| then Ok(q) else if s[q] == ';' then Ok(q + 1) else Looping
  }

  /** Every number of turns: first the blanks, then the character after them. */
  lemma {:induction false} TurnsAre(s: string, p: nat, n: nat)
    requires p <= |s|
    ensures var q := SkipBlanks(s, p);
            Turns(s, p, n) ==
              if n <= q - p then Turning(p + n)
              else if AfterEnd(s, p).Ok? then Left(AfterEnd(s, p).value) else Turning(q)
  {
    if n > 0 {
      TurnsAre(s, p, n - 1);
    }
  }

  /** The loop is left at a position exactly if that is where the property ends. */
  lemma LeavesIff(s: string, p: nat, q: nat)
    requires p <= |s|
    ensures AfterEnd(s, p) == Ok(q) <==> Leaves(s, p, q)
  {
    TurnsAre(s, p, SkipBlanks(s, p) - p + 1);
    forall n: nat | Turns(s, p, n) == Left(q) ensures AfterEnd(s, p) == Ok(q) {
      TurnsAre(s, p, n);
    }
  }

  /** The loop goes on for ever exactly if the property does not end. */
  lemma SpinsIff(s: string, p: nat)
    requires p <= |s|
    ensures AfterEnd(s, p) == Looping <==> Spins(s, p)
  {
    TurnsAre(s, p, SkipBlanks(s, p) - p + 1);
    if AfterEnd(s, p) == Looping {
      forall n: nat ensures Turns(s, p, n).Turning? {
        TurnsAre(s, p, n);
      }
    }
  }

  // ---------------------------------------------------------------------- whole properties

  /** How the loop after a property ends, by the position at which it begins. */
  type End = nat -> Parsed<nat>

  /** The end for a parser that gives every loop some turns and no more. */
  ghost function EndWithin(s: string, n: nat): End {
    (q: nat) => if q <= |s| && Turns(s, q, n).Left? then Ok(Turns(s, q, n).p) else Looping
  }

  /** The property by its parts: its key, its value and its end. */
  ghost function Assembled(k: string, v: Parsed<(string, nat)>, e: Parsed<nat>, params: Params): Parsed<(Params, nat)> {
    if !v.Ok? then Unterminated
    else if k in params then DuplicateKey
    else if e.Ok? then Ok((params[k := v.value.0], e.value))
    else Looping
  }

  /** One property: the properties with it and the position after it. */
  ghost function PropertyBy(end: End, s: string, p: nat, params: Params): (r: Parsed<(Params, nat)>)
    requires p < |s|
  {
    var n := Find(s, '=', p);
    if n == |s| then BadProperty
    else
      var v := Value(s, n + 1);
      Assembled(Trimmed(s[p..n]), v, if v.Ok? then end(v.value.1) else Looping, params)
  }

  /** A property by its key and the position of its value. */
  ghost function WithValue(s: string, k: string, q: nat, params: Params): Parsed<(Params, nat)>
    requires q <= |s|
  {
    var v := Value(s, q);
    Assembled(k, v, if v.Ok? then AfterEnd(s, v.value.1) else Looping, params)
  }

  ghost function Property(s: string, p: nat, params: Params): (r: Parsed<(Params, nat)>)
    requires p < |s|
    ensures r.Ok? ==> p < r.value.1 <= |s|
  {
    var n := Find(s, '=', p);
    if n == |s| then BadProperty else WithValue(s, Trimmed(s[p..n]), n + 1, params)
  }

  /** The error of one parser as that of another. */
  function Failed<A, B>(r: Parsed<A>): Parsed<B>
    requires !r.Ok?
  {
    match r
    case NoDriver => NoDriver
    case BadProperty => BadProperty
    case Unterminated => Unterminated
    case DuplicateKey => DuplicateKey
    case Looping => Looping
  }

  /** A parser of one thing: what there is with it and the position after it. */
  type Step = (nat, Params) -> Parsed<(Params, nat)>

  /** The step of the parser on a text. */
  ghost function StepBy(end: End, s: string): Step {
    (p: nat, params) => if p < |s| then PropertyBy(end, s, p, params) else BadProperty
  }

  ghost function StepOf(s: string): Step {
    (p: nat, params) => if p < |s| then Property(s, p, params) else BadProperty
  }

  /** One thing after the other up to the end of the text. */
  ghost function Repeat(step: Step, size: nat, p: nat, params: Params): Parsed<Params>
    decreases size - p
  {
    if p >= size then Ok(params)
    else
      var r := step(p, params);
      if !r.Ok? then Failed(r) else if p < r.value.1 then Repeat(step, size, r.value.1, r.value.0) else Looping
  }

  ghost function Properties(s: string, p: nat): Parsed<Params> {
    Repeat(StepOf(s), |s|, p, map[])
  }

  function WithDriver(driver: string, r: Parsed<Params>): Parsed<(string, Params)> {
    if r.Ok? then Ok((driver, r.value)) else Failed(r)
  }

  /** A driver and then properties, each read by a step. */
  ghost function ConnectionBy(step: Step, s: string): Parsed<(string, Params)> {
    var p := Find(s, ':', 0);
    if p == |s| then NoDriver else WithDriver(s[..p], Repeat(step, |s|, p + 1, map[]))
  }

  ghost function Connection(s: string): Parsed<(string, Params)> {
    ConnectionBy(StepOf(s), s)
  }

  /** What has become of a parser that gives every loop after a property n turns and no more. */
  ghost function ConnectionWithin(s: string, n: nat): Parsed<(string, Params)> {
    ConnectionBy(StepBy(EndWithin(s, n), s), s)
  }

  // ----------------------------------------------------------------------------- the parser

  method SkipBlankChars(s: string, from: nat) returns (p: nat)
    requires from <= |s|
    ensures p == SkipBlanks(s, from)
  {
    p := from;
    while p < |s| && IsBlank(s[p])
      invariant from <= p <= |s| && SkipBlanks(s, p) == SkipBlanks(s, from)
    {
      p := p + 1;
    }
  }

  /** The loop that reads a quoted value. */
  method ReadQuoted(s: string, from: nat) returns (value: Option<string>, p: nat)
    requires from <= |s|
    ensures from <= p <= |s| && Unquoted(s, from) == if value.Some? then Some((value.value, p)) else None
  {
    var v := "";
    p := from;
    PrefixedNothing(Unquoted(s, p));
    while true
      invariant from <= p <= |s| && Unquoted(s, from) == Prefixed(v, Unquoted(s, p))
      decreases |s| - p
    {
      if p >= |s| {
        return None, p;
      }
      if s[p] == '\'' {
        if p + 1 < |s| && s[p + 1] == '\'' {
          PrefixedTwice(v, "'", Unquoted(s, p + 2));
          v := v + "'";
          p := p + 2;
        } else {
          assert v + "" == v;
          return Some(v), p + 1;
        }
      } else {
        PrefixedTwice(v, [s[p]], Unquoted(s, p + 1));
        v := v + [s[p]];
        p := p + 1;
      }
    }
  }

  lemma PrefixedNothing(r: Option<(string, nat)>)
    ensures Prefixed("", r) == r
  {
    if r.Some? {
      assert "" + r.value.0 == r.value.0;
    }
  }

  lemma PrefixedTwice(a: string, b: string, r: Option<(string, nat)>)
    ensures Prefixed(a, Prefixed(b, r)) == Prefixed(a + b, r)
  {
    if r.Some? {
      assert a + (b + r.value.0) == a + b + r.value.0;
    }
  }

  /** Reads the value of a property. */
  method ReadValue(s: string, from: nat) returns (value: Option<string>, p: nat)
    requires from <= |s|
    ensures from <= p <= |s| && Value(s, from) == if value.Some? then Ok((value.value, p)) else Unterminated
    ensures if value.Some? then IsValue(s, from, value.value, p) else IsOpen(s, from)
  {
    value, p := ValueText(s, from);
    ValueIff(s, from, if value.Some? then value.value else "", p);
  }

  method ValueText(s: string, from: nat) returns (value: Option<string>, p: nat)
    requires from <= |s|
    ensures from <= p <= |s| && Value(s, from) == if value.Some? then Ok((value.value, p)) else Unterminated
  {
    p := SkipBlankChars(s, from);
    if p >= |s| {
      return Some(""), p;
    }
    if s[p] == '\'' {
      value, p := ReadQuoted(s, p + 1);
    } else {
      var n := Find(s, ';', p);
      var v := Trim(s[p..n]);
      value, p := Some(v), n;
    }
  }

  /** The loop after a property: the position at which it is left, or nothing if that never happens. */
  method SkipEnd(s: string, from: nat) returns (next: Option<nat>)
    requires from <= |s|
    ensures if next.Some? then Leaves(s, from, next.value) else Spins(s, from)
    ensures AfterEnd(s, from) == if next.Some? then Ok(next.value) else Looping
  {
    SpinsIff(s, from);
    var p := from;
    while p < |s|
      invariant from <= p <= |s| && SkipBlanks(s, p) == SkipBlanks(s, from)
    {
      if IsBlank(s[p]) {
        p := p + 1;
      } else if s[p] == ';' {
        LeavesIff(s, from, p + 1);
        return Some(p + 1);
      } else {
        return None;
      }
    }
    LeavesIff(s, from, p);
    next := Some(p);
  }

  /** Reads the key before a sign = and the value after it. */
  method ReadPair(s: string, p: nat, n: nat) returns (key: string, value: Option<string>, q: nat)
    requires p <= n < |s|
    ensures key == Trimmed(s[p..n])
    ensures q <= |s| && Value(s, n + 1) == if value.Some? then Ok((value.value, q)) else Unterminated
  {
    key := Trim(s[p..n]);
    value, q := ReadValue(s, n + 1);
  }

  /** Reads one property. */
  method ReadProperty(s: string, p: nat, params: Params) returns (r: Parsed<Params>, next: nat)
    requires p < |s|
    ensures Property(s, p, params) == if r.Ok? then Ok((r.value, next)) else Failed(r)
  {
    next := p;
    var n := Find(s, '=', p);
    if n == |s| {
      return BadProperty, p;
    }
    var key, value, q := ReadPair(s, p, n);
    if value.None? {
      return Unterminated, p;
    }
    if key in params {
      return DuplicateKey, p;
    }
    var end := SkipEnd(s, q);
    if end.None? {
      return Looping, p;
    }
    r, next := Ok(params[key := value.value]), end.value;
  }

  /** Reads all properties from a position on. */
  method ReadProperties(s: string, from: nat) returns (r: Parsed<Params>)
    requires from <= |s|
    ensures r == Properties(s, from)
  {
    var params: Params, p := map[], from;
    while p < |s|
      invariant p <= |s| && Repeat(StepOf(s), |s|, p, params) == Properties(s, from)
    {
      var step, next := ReadProperty(s, p, params);
      if !step.Ok? {
        return step;
      }
      params, p := step.value, next;
    }
    r := Ok(params);
  }

  /** `parse_connection_string`: the result that the text stands for.  The answer `Looping` means that
      the code does not return, which is so exactly on texts with a stray character. */
  method Parse(s: string) returns (r: Parsed<(string, Params)>)
    ensures r == Connection(s) && Means(s, r)
    ensures if r == Looping then forall n: nat :: ConnectionWithin(s, n) == Looping
            else exists n: nat :: ConnectionWithin(s, n) == r
    ensures r == Looping <==> IsStray(s)
  {
    LoopingIffStray(s);
    NeverStopsIff(s);
    r := ParseText(s);
    ConnectionIff(s, r);
    if r != Looping {
      StopsIff(s, r);
    }
  }

  method ParseText(s: string) returns (r: Parsed<(string, Params)>)
    ensures r == Connection(s)
  {
    var p := Find(s, ':', 0);
    if p == |s| {
      return NoDriver;
    }
    var params := ReadProperties(s, p + 1);
    r := WithDriver(s[..p], params);
  }

  // ----------------------------------------------------------- the whole text as it is written

  /** A property as it is written: its key and its value, and the blanks around them. */
  datatype Item = Item(before: string, key: string, between: string, lead: string, value: string, quoted: bool, trail: string)

  /** A key that can be written: without the character that ends it and without blanks around it. */
  ghost predicate IsKey(k: string) {
    '=' !in k && Bare(k)
  }

  ghost predicate IsItem(it: Item) {
    && Blank(it.before) && Blank(it.between) && Blank(it.lead) && Blank(it.trail)
    && IsKey(it.key) && (!it.quoted ==> IsPlain(it.value))
  }

  ghost function Head(it: Item): string {
    it.before + it.key + it.between + "="
  }

  ghost function Text(it: Item): string {
    Head(it) + (it.lead + (Written(it.value, it.quoted) + it.trail))
  }

  /** What is written after the driver: properties with a semicolon after each, and then nothing, a
      last property without a semicolon, or one of the ways in which a text can be wrong. */
  datatype Layout =
    | Nothing
    | Then(item: Item, next: Layout)
    | Last(item: Item)
    | NoSign(text: string)
    | Open(item: Item)
    | Again(item: Item, text: string)
    | Trailing(item: Item, text: string)

  ghost function LayoutText(l: Layout): string {
    match l
    case Nothing => ""
    case Then(it, next) => Text(it) + (";" + LayoutText(next))
    case Last(it) => Text(it)
    case NoSign(text) => text
    case Open(it) => Head(it) + (it.lead + ("'" + Escaped(it.value)))
    case Again(it, text) => Text(it) + text
    case Trailing(it, text) => Text(it) + text
  }

  /** A value has ended where this text begins. */
  ghost predicate EndsValue(it: Item, text: string) {
    text != "" ==> if it.quoted then it.trail == "" ==> text[0] != '\'' else text[0] == ';'
  }

  /** The parts are what they are called, where some properties come before. */
  ghost predicate Legal(l: Layout, params: Params) {
    match l
    case Nothing => true
    case Then(it, next) => IsItem(it) && it.key !in params && Legal(next, params[it.key := it.value])
    case Last(it) => IsItem(it) && it.key !in params
    case NoSign(text) => text != "" && '=' !in text
    case Open(it) => IsItem(it)
    case Again(it, text) => IsItem(it) && it.key in params && EndsValue(it, text)
    case Trailing(it, text) =>
      && IsItem(it) && it.quoted && it.key !in params && EndsValue(it, text)
      && text != "" && !IsBlank(text[0]) && text[0] != ';'
  }

  /** What a layout stands for, where some properties come before. */
  ghost function Meaning(l: Layout, params: Params): Parsed<Params> {
    match l
    case Nothing => Ok(params)
    case Then(it, next) => Meaning(next, params[it.key := it.value])
    case Last(it) => Ok(params[it.key := it.value])
    case NoSign(_) => BadProperty
    case Open(_) => Unterminated
    case Again(_, _) => DuplicateKey
    case Trailing(_, _) => Looping
  }

  /** A text is a driver and a layout, and these stand for the result. */
  ghost predicate LaidOut(s: string, driver: string, l: Layout, r: Parsed<(string, Params)>) {
    ':' !in driver && s == driver + ":" + LayoutText(l) && Legal(l, map[]) && r == WithDriver(driver, Meaning(l, map[]))
  }

  /** What a text stands for. */
  ghost predicate Means(s: string, r: Parsed<(string, Params)>) {
    if ':' !in s then r == NoDriver else exists driver, l :: LaidOut(s, driver, l, r)
  }

  // ------------------------------------------------------------------- reading what is written

  /** A key and the sign = are read. */
  lemma KeyPrinted(s: string, p: nat, k: string)
    requires '=' !in k && At(s, p, k + "=")
    ensures p + |k| < |s| && Find(s, '=', p) == p + |k| && s[p..p + |k|] == k
  {
    AtSplit(s, p, k, "=");
    AtSlice(s, p, k, 0);
    assert k[0..] == k;
    assert forall i :: 0 <= i < |k| ==> s[p..p + |k|][i] == k[i];
    FindEnd(s, '=', p, p + |k|);
  }

  lemma HeadRead(s: string, p: nat, it: Item)
    requires IsItem(it) && At(s, p, Head(it))
    ensures var n := p + |Head(it)| - 1; n < |s| && Find(s, '=', p) == n && Trimmed(s[p..n]) == it.key
  {
    KeyRead(s, p, it.before, it.key, it.between);
  }

  lemma KeyRead(s: string, p: nat, before: string, k: string, between: string)
    requires Blank(before) && Blank(between) && IsKey(k) && At(s, p, before + k + between + "=")
    ensures var n := p + |before + k + between|; n < |s| && Find(s, '=', p) == n && Trimmed(s[p..n]) == k
  {
    var t := before + k + between;
    KeyPrinted(s, p, t);
    TrimmedAround(t, before, k, between);
  }

  lemma HeadFound(s: string, p: nat) returns (before: string, k: string, between: string)
    requires p <= |s| && Find(s, '=', p) < |s|
    ensures var n := Find(s, '=', p);
            && Blank(before) && Blank(between) && IsKey(k) && k == Trimmed(s[p..n])
            && At(s, p, before + k + between + "=") && n + 1 == p + |before + k + between + "="|
  {
    var n := Find(s, '=', p);
    var t := s[p..n];
    before, k, between := KeyFound(t);
    AtIff(s, p, t);
    AtIff(s, n, "=");
    AtJoin(s, p, t, "=");
  }

  lemma KeyFound(t: string) returns (before: string, k: string, between: string)
    requires '=' !in t
    ensures Surrounds(t, before, k, between) && IsKey(k) && k == Trimmed(t)
  {
    before, between := TrimmedFound(t);
    k := Trimmed(t);
    assert forall i :: 0 <= i < |k| ==> k[i] == t[|before| + i];
  }

  /** Where the value of a property ends, if it has no quotes with the blanks after it. */
  ghost function ValueEnd(p: nat, it: Item): nat {
    p + |Head(it)| + |it.lead| + |Written(it.value, it.quoted)| + if it.quoted then 0 else |it.trail|
  }

  /** The value of a property has ended where its text ends. */
  ghost predicate EndsAt(s: string, it: Item, e: nat) {
    e < |s| ==> if it.quoted then it.trail == "" ==> s[e] != '\'' else s[e] == ';'
  }

  /** A property is written at a position. */
  ghost predicate ItemAt(s: string, p: nat, it: Item, e: nat) {
    IsItem(it) && At(s, p, Text(it)) && e == p + |Text(it)| && EndsAt(s, it, e)
  }

  /** A property with its sign = at a position, by the parts that are read. */
  ghost predicate ReadsAs(s: string, p: nat, n: nat, it: Item, e: nat) {
    p <= n < |s| && Find(s, '=', p) == n && Trimmed(s[p..n]) == it.key && Value(s, n + 1) == Ok((it.value, e))
  }

  lemma TextEnds(p: nat, it: Item)
    ensures p + |Text(it)| == ValueEnd(p, it) + if it.quoted then |it.trail| else 0
  {
  }

  lemma ItemRead(s: string, p: nat, it: Item, e: nat)
    requires ItemAt(s, p, it, e)
    ensures ReadsAs(s, p, p + |Head(it)| - 1, it, ValueEnd(p, it))
  {
    TextEnds(p, it);
    AtSplit(s, p, Head(it), it.lead + (Written(it.value, it.quoted) + it.trail));
    HeadRead(s, p, it);
    WrittenRead(s, p + |Head(it)|, it, ValueEnd(p, it));
  }

  lemma WrittenRead(s: string, q: nat, it: Item, e: nat)
    requires IsItem(it) && At(s, q, it.lead + (Written(it.value, it.quoted) + it.trail))
    requires e == q + |it.lead| + |Written(it.value, it.quoted)| + if it.quoted then 0 else |it.trail|
    requires EndsAt(s, it, if it.quoted then e + |it.trail| else e)
    ensures q <= |s| && Value(s, q) == Ok((it.value, e))
  {
    if it.quoted {
      QuotedParts(s, q, it.lead, it.value, it.trail, e);
      TrailIsNoQuote(s, e, it);
      ValueRead(s, q, it.lead, it.value, true, "", e);
    } else {
      ValueRead(s, q, it.lead, it.value, false, it.trail, e);
    }
  }

  lemma QuotedParts(s: string, q: nat, lead: string, v: string, trail: string, e: nat)
    requires At(s, q, lead + (Written(v, true) + trail)) && e == q + |lead| + |Written(v, true)|
    ensures At(s, q, lead + (Written(v, true) + "")) && At(s, e, trail)
  {
    var value := Written(v, true);
    assert lead + (value + trail) == lead + (value + "") + trail;
    AtSplit(s, q, lead + (value + ""), trail);
  }

  lemma TrailIsNoQuote(s: string, e: nat, it: Item)
    requires it.quoted && Blank(it.trail) && At(s, e, it.trail) && EndsAt(s, it, e + |it.trail|)
    ensures e < |s| ==> s[e] != '\''
  {
    if it.trail != "" {
      AtIff(s, e, it.trail);
      assert s[e] == s[e..e + |it.trail|][0] == it.trail[0];
    }
  }

  /** The end of a property: what comes after its blanks decides. */
  lemma EndRead(s: string, p: nat, it: Item, e: nat)
    requires ItemAt(s, p, it, e) && (it.quoted && e < |s| ==> !IsBlank(s[e]))
    ensures p < e <= |s| && ValueEnd(p, it) <= |s|
    ensures AfterEnd(s, ValueEnd(p, it)) == if e == |s| then Ok(e) else if s[e] == ';' then Ok(e + 1) else Looping
  {
    AtIff(s, p, Text(it));
    TextEnds(p, it);
    if it.quoted {
      AtSplit(s, p, Head(it), it.lead + (Written(it.value, true) + it.trail));
      QuotedParts(s, p + |Head(it)|, it.lead, it.value, it.trail, ValueEnd(p, it));
      SkipsBlanks(s, ValueEnd(p, it), it.trail);
    }
  }

  /** One property that is read. */
  lemma PropertyIs(s: string, p: nat, n: nat, it: Item, e: nat, end: Parsed<nat>, params: Params)
    requires ReadsAs(s, p, n, it, e) && e <= |s| && AfterEnd(s, e) == end
    ensures Property(s, p, params) == Assembled(it.key, Ok((it.value, e)), end, params)
  {
    WithValueIs(s, it.key, n + 1, it.value, e, end, params);
  }

  lemma WithValueIs(s: string, k: string, q: nat, v: string, e: nat, end: Parsed<nat>, params: Params)
    requires q <= |s| && Value(s, q) == Ok((v, e)) && e <= |s| && AfterEnd(s, e) == end
    ensures WithValue(s, k, q, params) == Assembled(k, Ok((v, e)), end, params)
  {
  }

  lemma PropertyAgain(s: string, p: nat, it: Item, e: nat, params: Params)
    requires ItemAt(s, p, it, e) && it.key in params
    ensures p < |s| && Property(s, p, params) == DuplicateKey
  {
    var n, v := p + |Head(it)| - 1, ValueEnd(p, it);
    ItemRead(s, p, it, e);
    assert v <= |s|;
    PropertyIs(s, p, n, it, v, AfterEnd(s, v), params);
  }

  lemma PropertyNew(s: string, p: nat, it: Item, e: nat, params: Params)
    requires ItemAt(s, p, it, e) && it.key !in params && (it.quoted && e < |s| ==> !IsBlank(s[e]))
    ensures p < |s| && p < e <= |s|
    ensures Property(s, p, params) ==
              if e == |s| then Ok((params[it.key := it.value], e))
              else if s[e] == ';' then Ok((params[it.key := it.value], e + 1)) else Looping
  {
    var n, v := p + |Head(it)| - 1, ValueEnd(p, it);
    ItemRead(s, p, it, e);
    EndRead(s, p, it, e);
    PropertyIs(s, p, n, it, v, if e == |s| then Ok(e) else if s[e] == ';' then Ok(e + 1) else Looping, params);
  }

  lemma PropertyOpen(s: string, p: nat, it: Item, params: Params)
    requires IsItem(it) && At(s, p, Head(it)) && OpenAt(s, p + |Head(it)|, it.lead, it.value)
    ensures p < |s| && Property(s, p, params) == Unterminated
  {
    HeadRead(s, p, it);
    OpenRead(s, p + |Head(it)|, it.lead, it.value);
  }

  /** A step that is the parser's; the name keeps its definition out of the way. */
  ghost predicate IsStep(step: Step, s: string) {
    forall p: nat, params {:trigger Property(s, p, params)} :: p < |s| ==> step(p, params) == Property(s, p, params)
  }

  lemma StepIs(s: string)
    ensures IsStep(StepOf(s), s)
  {
  }

  /** The text of a property begins the rest of the text. */
  lemma Begins(s: string, p: nat, it: Item, text: string) returns (e: nat)
    requires At(s, p, Text(it) + text) && p + |Text(it) + text| == |s| && IsItem(it) && EndsValue(it, text)
    ensures ItemAt(s, p, it, e) && e <= |s| && (if text == "" then e == |s| else e < |s| && s[e] == text[0])
  {
    e := p + |Text(it)|;
    AtSplit(s, p, Text(it), text);
    AtIff(s, e, text);
    assert text != "" ==> s[e] == s[e..e + |text|][0];
  }

  /** A property with a semicolon after it, or at the end. */
  lemma ItemStep(step: Step, s: string, p: nat, it: Item, params: Params, rest: string)
    requires IsStep(step, s) && IsItem(it) && it.key !in params && (rest == "" || rest[0] == ';')
    requires At(s, p, Text(it) + rest) && p + |Text(it) + rest| == |s|
    ensures var e := p + |Text(it)|;
            p < e && step(p, params) == Ok((params[it.key := it.value], if rest == "" then e else e + 1))
  {
    var e := Begins(s, p, it, rest);
    PropertyNew(s, p, it, e, params);
  }

  lemma ThenStep(step: Step, s: string, p: nat, it: Item, rest: string, params: Params)
    requires IsStep(step, s) && IsItem(it) && it.key !in params
    requires At(s, p, Text(it) + (";" + rest)) && p + |Text(it) + (";" + rest)| == |s|
    ensures var q := p + |Text(it)| + 1;
            p < q && step(p, params) == Ok((params[it.key := it.value], q)) && At(s, q, rest) && q + |rest| == |s|
  {
    ItemStep(step, s, p, it, params, ";" + rest);
    AtSplit(s, p, Text(it), ";" + rest);
    AtSplit(s, p + |Text(it)|, ";", rest);
  }

  /** A property whose key has been read before. */
  lemma AgainStep(step: Step, s: string, p: nat, it: Item, params: Params, text: string)
    requires IsStep(step, s) && IsItem(it) && it.key in params && EndsValue(it, text)
    requires At(s, p, Text(it) + text) && p + |Text(it) + text| == |s|
    ensures p < |s| && step(p, params) == DuplicateKey
  {
    var e := Begins(s, p, it, text);
    PropertyAgain(s, p, it, e, params);
  }

  /** Another character after a quoted value. */
  lemma TrailingStep(step: Step, s: string, p: nat, it: Item, params: Params, text: string)
    requires IsStep(step, s) && Legal(Trailing(it, text), params)
    requires At(s, p, Text(it) + text) && p + |Text(it) + text| == |s|
    ensures p < |s| && step(p, params) == Looping
  {
    var e := Begins(s, p, it, text);
    PropertyNew(s, p, it, e, params);
  }

  lemma OpenStep(step: Step, s: string, p: nat, it: Item, params: Params)
    requires IsStep(step, s) && IsItem(it)
    requires At(s, p, LayoutText(Open(it))) && p + |LayoutText(Open(it))| == |s|
    ensures p < |s| && step(p, params) == Unterminated
  {
    AtSplit(s, p, Head(it), it.lead + ("'" + Escaped(it.value)));
    PropertyOpen(s, p, it, params);
  }

  lemma NoSignStep(step: Step, s: string, p: nat, text: string, params: Params)
    requires IsStep(step, s) && text != "" && '=' !in text && At(s, p, text) && p + |text| == |s|
    ensures p < |s| && step(p, params) == BadProperty
  {
    AtIff(s, p, text);
    assert forall i :: p <= i < |s| ==> s[i] == s[p..][i - p];
    assert Property(s, p, params) == BadProperty;
  }

  /** What is written is read. */
  lemma {:induction false} LayoutRead(step: Step, s: string, p: nat, l: Layout, params: Params)
    requires IsStep(step, s) && Legal(l, params) && At(s, p, LayoutText(l)) && p + |LayoutText(l)| == |s|
    ensures Repeat(step, |s|, p, params) == Meaning(l, params)
    decreases l
  {
    match l
    case Nothing =>
    case Then(it, next) =>
      ThenStep(step, s, p, it, LayoutText(next), params);
      LayoutRead(step, s, p + |Text(it)| + 1, next, params[it.key := it.value]);
    case Last(it) =>
      assert Text(it) + "" == Text(it);
      ItemStep(step, s, p, it, params, "");
    case NoSign(text) => NoSignStep(step, s, p, text, params);
    case Open(it) => OpenStep(step, s, p, it, params);
    case Again(it, text) => AgainStep(step, s, p, it, params, text);
    case Trailing(it, text) => TrailingStep(step, s, p, it, params, text);
  }

  // ------------------------------------------------------------ every text is written somehow

  /** The parts of a property that is read, with all the blanks behind its value. */
  lemma ItemFound(s: string, p: nat, q: nat) returns (it: Item, e: nat)
    requires p < q <= |s| && Find(s, '=', p) == q - 1 && Value(s, q).Ok?
    ensures ItemAt(s, p, it, e) && (it.quoted && e < |s| ==> !IsBlank(s[e]))
  {
    var before, k, between := HeadFound(s, p);
    it, e := ItemWithHead(s, p, q, before, k, between);
  }

  lemma ItemWithHead(s: string, p: nat, q: nat, before: string, k: string, between: string) returns (it: Item, e: nat)
    requires q <= |s| && Value(s, q).Ok? && Blank(before) && Blank(between) && IsKey(k)
    requires At(s, p, before + k + between + "=") && q == p + |before + k + between + "="|
    ensures ItemAt(s, p, it, e) && (it.quoted && e < |s| ==> !IsBlank(s[e]))
  {
    var lead, v, quoted, trail := BlanksFound(s, q);
    it := Item(before, k, between, lead, v, quoted, trail);
    e := p + |Text(it)|;
    JoinText(s, p, q, it);
  }

  lemma JoinText(s: string, p: nat, q: nat, it: Item)
    requires At(s, p, Head(it)) && q == p + |Head(it)|
    requires At(s, q, it.lead + (Written(it.value, it.quoted) + it.trail))
    ensures At(s, p, Text(it)) && p + |Text(it)| == q + |it.lead + (Written(it.value, it.quoted) + it.trail)|
  {
    AtJoin(s, p, Head(it), it.lead + (Written(it.value, it.quoted) + it.trail));
  }

  /** A value that is read and all the blanks around it. */
  lemma BlanksFound(s: string, q: nat) returns (lead: string, v: string, quoted: bool, trail: string)
    requires q <= |s| && Value(s, q).Ok?
    ensures Blank(lead) && Blank(trail) && (!quoted ==> IsPlain(v))
    ensures At(s, q, lead + (Written(v, quoted) + trail))
    ensures var e := q + |lead + (Written(v, quoted) + trail)|;
            e < |s| ==> if quoted then !IsBlank(s[e]) && (trail == "" ==> s[e] != '\'') else s[e] == ';'
  {
    lead, v, quoted, trail := ValueFound(s, q);
    if quoted {
      var e := Value(s, q).value.1;
      trail := LeadFound(s, e);
      AddTrail(s, q, lead, v, e, trail);
    }
  }

  lemma AddTrail(s: string, q: nat, lead: string, v: string, e: nat, trail: string)
    requires ValueAt(s, q, lead, v, true, "", e) && At(s, e, trail)
    ensures At(s, q, lead + (Written(v, true) + trail)) && q + |lead + (Written(v, true) + trail)| == e + |trail|
  {
    var value := Written(v, true);
    assert lead + (value + "") == lead + value;
    AtJoin(s, q, lead + value, trail);
    assert lead + value + trail == lead + (value + trail);
  }

  lemma OpenItemFound(s: string, p: nat, q: nat) returns (it: Item)
    requires p < q <= |s| && Find(s, '=', p) == q - 1 && !Value(s, q).Ok?
    ensures IsItem(it) && At(s, p, LayoutText(Open(it))) && p + |LayoutText(Open(it))| == |s|
  {
    var before, k, between := HeadFound(s, p);
    var lead, v, _, _ := ValueFound(s, q);
    it := Item(before, k, between, lead, v, true, "");
    JoinOpen(s, p, q, it);
  }

  lemma JoinOpen(s: string, p: nat, q: nat, it: Item)
    requires At(s, p, Head(it)) && q == p + |Head(it)| && OpenAt(s, q, it.lead, it.value)
    ensures At(s, p, LayoutText(Open(it))) && p + |LayoutText(Open(it))| == |s|
  {
    AtJoin(s, p, Head(it), it.lead + ("'" + Escaped(it.value)));
  }

  /** A property and the rest of the text. */
  lemma Rests(s: string, p: nat, it: Item, e: nat) returns (text: string)
    requires ItemAt(s, p, it, e)
    ensures At(s, p, Text(it) + text) && p + |Text(it) + text| == |s| && EndsValue(it, text)
    ensures e <= |s| && (if e == |s| then text == "" else text != "" && text[0] == s[e])
  {
    AtIff(s, p, Text(it));
    text := s[e..];
    AtIff(s, e, text);
    AtJoin(s, p, Text(it), text);
  }

  lemma JoinThen(s: string, p: nat, it: Item, next: Layout)
    requires At(s, p, Text(it)) && p + |Text(it)| < |s| && s[p + |Text(it)|] == ';'
    requires At(s, p + |Text(it)| + 1, LayoutText(next))
    ensures At(s, p, LayoutText(Then(it, next)))
  {
    var e := p + |Text(it)|;
    AtIff(s, e, ";");
    AtJoin(s, e, ";", LayoutText(next));
    AtJoin(s, p, Text(it), ";" + LayoutText(next));
  }

  /** The rest of any text has a layout. */
  lemma {:induction false} LayoutFound(s: string, p: nat, params: Params) returns (l: Layout)
    requires p <= |s|
    ensures Legal(l, params) && At(s, p, LayoutText(l)) && p + |LayoutText(l)| == |s|
    decreases |s| - p
  {
    if p == |s| {
      l := Nothing;
    } else if Find(s, '=', p) == |s| {
      l := NoSign(s[p..]);
      AtIff(s, p, s[p..]);
    } else if !Value(s, Find(s, '=', p) + 1).Ok? {
      var it := OpenItemFound(s, p, Find(s, '=', p) + 1);
      l := Open(it);
    } else {
      var it, e := ItemFound(s, p, Find(s, '=', p) + 1);
      l := ItemLayout(s, p, it, e, params);
    }
  }

  lemma {:induction false} ItemLayout(s: string, p: nat, it: Item, e: nat, params: Params) returns (l: Layout)
    requires ItemAt(s, p, it, e) && (it.quoted && e < |s| ==> !IsBlank(s[e]))
    ensures Legal(l, params) && At(s, p, LayoutText(l)) && p + |LayoutText(l)| == |s|
    decreases |s| - p, 0
  {
    var text := Rests(s, p, it, e);
    if it.key in params {
      l := Again(it, text);
    } else if e == |s| {
      l := Last(it);
    } else if s[e] == ';' {
      var next := LayoutFound(s, e + 1, params[it.key := it.value]);
      l := Then(it, next);
      JoinThen(s, p, it, next);
    } else {
      l := Trailing(it, text);
    }
  }

  lemma DriverPrinted(s: string, driver: string, text: string)
    requires ':' !in driver && s == driver + ":" + text
    ensures |driver| < |s| && Find(s, ':', 0) == |driver| && s[..|driver|] == driver && At(s, |driver| + 1, text)
  {
    AtConcat(driver + ":", text, 0);
    FindEnd(s, ':', 0, |driver|);
  }

  lemma ConnectionIs(s: string, p: nat)
    requires p == Find(s, ':', 0) < |s|
    ensures Connection(s) == WithDriver(s[..p], Repeat(StepOf(s), |s|, p + 1, map[]))
  {
  }

  lemma ReadAsMeant(s: string, driver: string, l: Layout, r: Parsed<(string, Params)>)
    requires LaidOut(s, driver, l, r)
    ensures Connection(s) == r
  {
    DriverPrinted(s, driver, LayoutText(l));
    StepIs(s);
    LayoutRead(StepOf(s), s, |driver| + 1, l, map[]);
    ConnectionIs(s, |driver|);
  }

  lemma SomeMeaning(s: string) returns (driver: string, l: Layout)
    requires ':' in s
    ensures LaidOut(s, driver, l, WithDriver(driver, Meaning(l, map[])))
  {
    var p := Find(s, ':', 0);
    driver := s[..p];
    l := LayoutFound(s, p + 1, map[]);
    DriverFound(s, p, LayoutText(l));
  }

  lemma DriverFound(s: string, p: nat, text: string)
    requires p < |s| && s[p] == ':' && At(s, p + 1, text) && p + 1 + |text| == |s|
    ensures s == s[..p] + ":" + text
  {
    AtIff(s, p + 1, text);
  }

  /** The result of parsing is what the text stands for, for every text, and nothing else is. */
  lemma ConnectionIff(s: string, r: Parsed<(string, Params)>)
    ensures Connection(s) == r <==> Means(s, r)
  {
    if ':' in s {
      var driver, l := SomeMeaning(s);
      var m := WithDriver(driver, Meaning(l, map[]));
      ReadAsMeant(s, driver, l, m);
      assert LaidOut(s, driver, l, m);
      forall d, k | LaidOut(s, d, k, r) ensures Connection(s) == r {
        ReadAsMeant(s, d, k, r);
      }
    } else {
      assert Find(s, ':', 0) == |s|;
    }
  }

  // -------------------------------------------------------------------------- the round trip

  /** Properties one after the other, the last of them with or without a semicolon. */
  ghost function Listed(items: seq<Item>, i: nat, closed: bool): Layout
    requires i <= |items|
    decreases |items| - i
  {
    if i == |items| then Nothing
    else if i + 1 == |items| && !closed then Last(items[i])
    else Then(items[i], Listed(items, i + 1, closed))
  }

  /** The properties from number i on, added to others. */
  ghost function Updated(params: Params, items: seq<Item>, i: nat): Params
    requires i <= |items|
    decreases |items| - i
  {
    if i == |items| then params else Updated(params[items[i].key := items[i].value], items, i + 1)
  }

  ghost predicate DistinctKeys(items: seq<Item>) {
    forall i, j :: 0 <= i < j < |items| ==> items[i].key != items[j].key
  }

  lemma {:induction false} ListedMeans(items: seq<Item>, i: nat, closed: bool, params: Params)
    requires i <= |items| && DistinctKeys(items)
    requires forall j :: i <= j < |items| ==> IsItem(items[j]) && items[j].key !in params
    ensures Legal(Listed(items, i, closed), params) && Meaning(Listed(items, i, closed), params) == Ok(Updated(params, items, i))
    decreases |items| - i
  {
    if i < |items| {
      ListedMeans(items, i + 1, closed, params[items[i].key := items[i].value]);
    }
  }

  /** The map of some properties with different keys: each key with its value, and nothing else. */
  lemma {:induction false} UpdatedIs(params: Params, items: seq<Item>, i: nat, k: string)
    requires i <= |items| && DistinctKeys(items)
    ensures k in Updated(params, items, i) <==> k in params || exists j :: i <= j < |items| && items[j].key == k
    ensures forall j :: i <= j < |items| && items[j].key == k ==> Updated(params, items, i)[k] == items[j].value
    ensures k in params && (forall j :: i <= j < |items| ==> items[j].key != k) ==> Updated(params, items, i)[k] == params[k]
    decreases |items| - i
  {
    if i < |items| {
      UpdatedIs(params[items[i].key := items[i].value], items, i + 1, k);
    }
  }

  /** Properties with different keys, quoted and plain ones in any order, with any blanks, are read
      back as they were written. */
  lemma RoundTrip(driver: string, items: seq<Item>, closed: bool)
    requires ':' !in driver && DistinctKeys(items) && forall i :: 0 <= i < |items| ==> IsItem(items[i])
    ensures Connection(driver + ":" + LayoutText(Listed(items, 0, closed))) == Ok((driver, Updated(map[], items, 0)))
  {
    ListedMeans(items, 0, closed, map[]);
    ReadAsMeant(driver + ":" + LayoutText(Listed(items, 0, closed)), driver, Listed(items, 0, closed),
                Ok((driver, Updated(map[], items, 0))));
  }

  lemma PlainText(it: Item)
    requires !it.quoted && it.before == it.between == it.lead == it.trail == ""
    ensures Text(it) == it.key + "=" + it.value
  {
    assert it.before + it.key + it.between == it.key;
    assert it.lead + (it.value + it.trail) == it.value;
  }

  /** One plain property, such as the whole of sqlite3:db=test.db. */
  lemma PlainRoundTrip(driver: string, k: string, v: string)
    requires ':' !in driver && IsKey(k) && IsPlain(v)
    ensures Connection(driver + ":" + k + "=" + v) == Ok((driver, map[k := v]))
  {
    var it := Item("", k, "", "", v, false, "");
    PlainText(it);
    assert driver + ":" + k + "=" + v == driver + ":" + (k + "=" + v);
    var none: Params := map[];
    ReadAsMeant(driver + ":" + k + "=" + v, driver, Last(it), Ok((driver, none[k := v])));
  }

  // ------------------------------------------------------------------- when the parser stops

  /** A loop that is given fewer turns ends in the same way, or has not ended. */
  lemma FewerTurns(s: string, n: nat, q: nat)
    requires q <= |s|
    ensures EndWithin(s, n)(q) == AfterEnd(s, q) || EndWithin(s, n)(q) == Looping
    ensures n > |s| ==> EndWithin(s, n)(q) == AfterEnd(s, q)
  {
    TurnsAre(s, q, n);
  }

  /** One step is another, except that it may not have ended. */
  ghost predicate Fewer(a: Step, b: Step) {
    forall p: nat, params :: a(p, params) == b(p, params) || a(p, params) == Looping
  }

  lemma {:induction false} RepeatFewer(a: Step, b: Step, size: nat, p: nat, params: Params)
    requires Fewer(a, b)
    ensures Repeat(a, size, p, params) == Repeat(b, size, p, params) || Repeat(a, size, p, params) == Looping
    decreases size - p
  {
    if p < size {
      var r := b(p, params);
      assert a(p, params) == r || a(p, params) == Looping;
      if r.Ok? && p < r.value.1 {
        RepeatFewer(a, b, size, r.value.1, r.value.0);
      }
    }
  }

  lemma StepFewer(s: string, n: nat)
    ensures Fewer(StepBy(EndWithin(s, n), s), StepOf(s))
    ensures n > |s| ==> Fewer(StepOf(s), StepBy(EndWithin(s, n), s))
  {
    var a, b := StepBy(EndWithin(s, n), s), StepOf(s);
    forall p: nat, params ensures a(p, params) == b(p, params) || a(p, params) == Looping
      ensures n > |s| ==> a(p, params) == b(p, params)
    {
      if p < |s| && Find(s, '=', p) < |s| && Value(s, Find(s, '=', p) + 1).Ok? {
        FewerTurns(s, n, Value(s, Find(s, '=', p) + 1).value.1);
      }
    }
  }

  /** With fewer turns the parser gives the same, or is still in a loop; more turns than the text is
      long are enough. */
  lemma WithinIs(s: string, n: nat)
    ensures ConnectionWithin(s, n) == Connection(s) || ConnectionWithin(s, n) == Looping
    ensures n > |s| ==> ConnectionWithin(s, n) == Connection(s)
  {
    StepFewer(s, n);
    FewerBy(StepBy(EndWithin(s, n), s), StepOf(s), s, n > |s|);
  }

  lemma FewerBy(a: Step, b: Step, s: string, all: bool)
    requires Fewer(a, b) && (all ==> Fewer(b, a))
    ensures ConnectionBy(a, s) == ConnectionBy(b, s) || ConnectionBy(a, s) == Looping
    ensures all ==> ConnectionBy(a, s) == ConnectionBy(b, s)
  {
    var p := Find(s, ':', 0);
    if p < |s| {
      RepeatFewer(a, b, |s|, p + 1, map[]);
      if all {
        RepeatFewer(b, a, |s|, p + 1, map[]);
      }
    }
  }

  /** The parser gives a result exactly if some number of turns gives it. */
  lemma StopsIff(s: string, r: Parsed<(string, Params)>)
    requires r != Looping
    ensures Connection(s) == r <==> exists n: nat :: ConnectionWithin(s, n) == r
  {
    WithinIs(s, |s| + 1);
    forall n: nat | ConnectionWithin(s, n) == r ensures Connection(s) == r {
      WithinIs(s, n);
    }
  }

  /** The parser does not stop exactly if no number of turns is enough. */
  lemma NeverStopsIff(s: string)
    ensures Connection(s) == Looping <==> forall n: nat :: ConnectionWithin(s, n) == Looping
  {
    WithinIs(s, |s| + 1);
    if Connection(s) == Looping {
      forall n: nat ensures ConnectionWithin(s, n) == Looping {
        WithinIs(s, n);
      }
    }
  }

  // ----------------------------------------------------- which texts the parser never leaves

  /** What a reader who goes through the text character by character has just seen. */
  datatype Mode =
    | InKey(start: nat)
    | AfterSign(key: string)
    | InPlain(key: string)
    | InQuotes(key: string)
    | AtQuote(key: string)
    | AfterQuotes(key: string)

  /** In one pass over the text: a character other than a blank or a semicolon comes after a quoted
      value whose key, like all keys before it, is new. */
  predicate Stray(s: string, i: nat, mode: Mode, keys: set<string>)
    requires i <= |s| && (mode.InKey? ==> mode.start <= i)
    decreases |s| - i, if mode.AfterSign? || mode.AtQuote? then 1 else 0
  {
    i < |s| &&
    match mode
    case InKey(a) => Stray(s, i + 1, if s[i] == '=' then AfterSign(Trimmed(s[a..i])) else mode, keys)
    case AfterSign(k) =>
      if IsBlank(s[i]) then Stray(s, i + 1, mode, keys)
      else if s[i] == '\'' then Stray(s, i + 1, InQuotes(k), keys)
      else Stray(s, i, InPlain(k), keys)
    case InPlain(k) =>
      if s[i] != ';' then Stray(s, i + 1, mode, keys)
      else k !in keys && Stray(s, i + 1, InKey(i + 1), keys + {k})
    case InQuotes(k) => Stray(s, i + 1, if s[i] == '\'' then AtQuote(k) else mode, keys)
    case AtQuote(k) =>
      if s[i] == '\'' then Stray(s, i + 1, InQuotes(k), keys)
      else k !in keys && Stray(s, i, AfterQuotes(k), keys)
    case AfterQuotes(k) =>
      if IsBlank(s[i]) then Stray(s, i + 1, mode, keys)
      else s[i] != ';' || Stray(s, i + 1, InKey(i + 1), keys + {k})
  }

  predicate IsStray(s: string) {
    var p := Find(s, ':', 0);
    p < |s| && Stray(s, p + 1, InKey(p + 1), {})
  }

  lemma {:induction false} KeyRun(s: string, a: nat, i: nat, keys: set<string>)
    requires a <= i <= |s|
    ensures var n := Find(s, '=', i);
            Stray(s, i, InKey(a), keys) <==> n < |s| && Stray(s, n + 1, AfterSign(Trimmed(s[a..n])), keys)
    decreases |s| - i
  {
    if i < |s| && s[i] != '=' {
      KeyRun(s, a, i + 1, keys);
    }
  }

  lemma {:induction false} PlainRun(s: string, i: nat, k: string, keys: set<string>)
    requires i <= |s|
    ensures var n := Find(s, ';', i);
            Stray(s, i, InPlain(k), keys) <==> n < |s| && k !in keys && Stray(s, n + 1, InKey(n + 1), keys + {k})
    decreases |s| - i
  {
    if i < |s| && s[i] != ';' {
      PlainRun(s, i + 1, k, keys);
    }
  }

  lemma {:induction false} SignRun(s: string, i: nat, k: string, keys: set<string>)
    requires i <= |s|
    ensures var q := SkipBlanks(s, i);
            Stray(s, i, AfterSign(k), keys) <==>
              q < |s| && if s[q] == '\'' then Stray(s, q + 1, InQuotes(k), keys) else Stray(s, q, InPlain(k), keys)
    decreases |s| - i
  {
    if i < |s| && IsBlank(s[i]) {
      SignRun(s, i + 1, k, keys);
    }
  }

  lemma {:induction false} QuotesRun(s: string, i: nat, k: string, keys: set<string>)
    requires i <= |s|
    ensures var r := Unquoted(s, i);
            Stray(s, i, InQuotes(k), keys) <==> r.Some? && k !in keys && Stray(s, r.value.1, AfterQuotes(k), keys)
    decreases |s| - i
  {
    if i < |s| {
      if s[i] != '\'' {
        QuotesRun(s, i + 1, k, keys);
      } else if i + 1 < |s| && s[i + 1] == '\'' {
        QuotesRun(s, i + 2, k, keys);
      }
    }
  }

  lemma {:induction false} AfterRun(s: string, i: nat, k: string, keys: set<string>)
    requires i <= |s|
    ensures var e := AfterEnd(s, i);
            Stray(s, i, AfterQuotes(k), keys) <==>
              e == Looping || Stray(s, e.value, InKey(e.value), keys + {k})
    decreases |s| - i
  {
    if i < |s| && IsBlank(s[i]) {
      AfterRun(s, i + 1, k, keys);
    }
  }

  /** After the sign: the value, and then the loop that follows it. */
  lemma ValueRun(s: string, i: nat, k: string, keys: set<string>)
    requires i <= |s|
    ensures var v := Value(s, i);
            Stray(s, i, AfterSign(k), keys) <==>
              v.Ok? && k !in keys && var e := AfterEnd(s, v.value.1); e == Looping || Stray(s, e.value, InKey(e.value), keys + {k})
  {
    var q := SkipBlanks(s, i);
    SignRun(s, i, k, keys);
    if q < |s| && s[q] == '\'' {
      QuotesRun(s, q + 1, k, keys);
      var r := Unquoted(s, q + 1);
      if r.Some? {
        AfterRun(s, r.value.1, k, keys);
      }
    } else {
      StopsAfterPlainValue(s, i);
      if q < |s| {
        PlainRun(s, q, k, keys);
      }
    }
  }

  /** A value without quotes ends at a semicolon or with the text, so that the loop after it is left. */
  lemma StopsAfterPlainValue(s: string, p: nat)
    requires p <= |s| && (SkipBlanks(s, p) < |s| ==> s[SkipBlanks(s, p)] != '\'')
    ensures Value(s, p).Ok?
    ensures var n := Value(s, p).value.1;
            var e := if n < |s| then n + 1 else n;
            AfterEnd(s, n) == Ok(e) && Leaves(s, n, e)
  {
    var n := Value(s, p).value.1;
    PlainEnds(s, n);
  }

  lemma PlainEnds(s: string, n: nat)
    requires n <= |s| && (n < |s| ==> s[n] == ';')
    ensures var e := if n < |s| then n + 1 else n; AfterEnd(s, n) == Ok(e) && Leaves(s, n, e)
  {
    LeavesIff(s, n, if n < |s| then n + 1 else n);
  }

  /** What is left to read after a property. */
  ghost predicate StrayAfter(s: string, r: Parsed<(Params, nat)>) {
    r == Looping || (r.Ok? && r.value.1 <= |s| && Stray(s, r.value.1, InKey(r.value.1), r.value.0.Keys))
  }

  lemma PartsRun(s: string, i: nat, k: string, params: Params)
    requires i <= |s|
    ensures Stray(s, i, AfterSign(k), params.Keys) <==> StrayAfter(s, WithValue(s, k, i, params))
  {
    var v := Value(s, i);
    ValueRun(s, i, k, params.Keys);
    if v.Ok? {
      assert params[k := v.value.0].Keys == params.Keys + {k};
    }
  }

  lemma KeyThenParts(s: string, p: nat, n: nat, k: string, r: Parsed<(Params, nat)>, params: Params)
    requires p <= n < |s| && n == Find(s, '=', p) && k == Trimmed(s[p..n]) && r == WithValue(s, k, n + 1, params)
    ensures Stray(s, p, InKey(p), params.Keys) <==> StrayAfter(s, r)
  {
    KeyRun(s, p, p, params.Keys);
    PartsRun(s, n + 1, k, params);
  }

  lemma PropertyRun(s: string, p: nat, params: Params)
    requires p < |s|
    ensures Stray(s, p, InKey(p), params.Keys) <==> StrayAfter(s, Property(s, p, params))
  {
    var n := Find(s, '=', p);
    if n < |s| {
      KeyThenParts(s, p, n, Trimmed(s[p..n]), Property(s, p, params), params);
    } else {
      KeyRun(s, p, p, params.Keys);
    }
  }

  lemma {:induction false} RepeatRun(s: string, p: nat, params: Params)
    requires p <= |s|
    ensures Stray(s, p, InKey(p), params.Keys) <==> Repeat(StepOf(s), |s|, p, params) == Looping
    decreases |s| - p
  {
    if p < |s| {
      PropertyRun(s, p, params);
      var r := Property(s, p, params);
      if r.Ok? {
        RepeatRun(s, r.value.1, r.value.0);
      }
    }
  }

  lemma LoopingIffStray(s: string)
    ensures Connection(s) == Looping <==> IsStray(s)
  {
    LoopingBy(StepOf(s), s);
  }

  lemma LoopingBy(step: Step, s: string)
    requires step == StepOf(s)
    ensures ConnectionBy(step, s) == Looping <==> IsStray(s)
  {
    var p := Find(s, ':', 0);
    if p < |s| {
      RunFromStart(step, s, p + 1);
      DriverLoops(s[..p], Repeat(step, |s|, p + 1, map[]));
    }
  }

  lemma DriverLoops(driver: string, r: Parsed<Params>)
    ensures WithDriver(driver, r) == Looping <==> r == Looping
  {
  }

  lemma RunFromStart(step: Step, s: string, p: nat)
    requires step == StepOf(s) && p <= |s|
    ensures Stray(s, p, InKey(p), {}) <==> Repeat(step, |s|, p, map[]) == Looping
  {
    var none: Params := map[];
    assert none.Keys == {};
    RepeatRun(s, p, none);
  }

  /** The parser does not stop exactly on the texts with a stray character after a quoted value. */
  lemma NeverStopsIffStray(s: string)
    ensures (forall n: nat :: ConnectionWithin(s, n) == Looping) <==> IsStray(s)
  {
    NeverStopsIff(s);
    LoopingIffStray(s);
  }

  /** A character right after the quotes, such as the x of d:k='v'x: the loop stays at it whatever the
      number of turns, and so the parser never stops. */
  lemma StuckAfterQuote(s: string, p: nat, k: string, v: string, n: nat)
    requires Find(s, ':', 0) + 1 == p <= |s| && '=' !in k && At(s, p, k + "=" + ("'" + Escaped(v) + "'"))
    requires var e := p + |k| + |Escaped(v)| + 3; e < |s| && !IsBlank(s[e]) && s[e] != ';' && s[e] != '\''
    ensures var e := p + |k| + |Escaped(v)| + 3; Turns(s, e, n) == Turning(e)
    ensures ConnectionWithin(s, n) == Looping
  {
    var e := p + |k| + |Escaped(v)| + 3;
    QuoteEnds(s, p, k, v, e);
    TurnsAre(s, e, n);
    LoopsFirst(s, p);
    NeverStopsIff(s);
  }

  lemma QuoteEnds(s: string, p: nat, k: string, v: string, e: nat)
    requires '=' !in k && At(s, p, k + "=" + ("'" + Escaped(v) + "'")) && e == p + |k| + |Escaped(v)| + 3
    requires e < |s| && s[e] != '\''
    ensures p < |s| && Find(s, '=', p) == p + |k| < |s| && Value(s, p + |k| + 1) == Ok((v, e))
  {
    AtSplit(s, p, k + "=", "'" + Escaped(v) + "'");
    KeyPrinted(s, p, k);
    ValuePrinted(s, p + |k| + 1, v);
  }

  lemma LoopsFirst(s: string, p: nat)
    requires Find(s, ':', 0) + 1 == p < |s| && Find(s, '=', p) < |s| && Value(s, Find(s, '=', p) + 1).Ok?
    requires AfterEnd(s, Value(s, Find(s, '=', p) + 1).value.1) == Looping
    ensures Connection(s) == Looping
  {
    assert Property(s, p, map[]) == Looping;
  }
}

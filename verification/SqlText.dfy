/** The placeholders of SQL text: how the MySQL driver substitutes parameters for them and how the
    PostgreSQL driver numbers them. */
module SqlText {
  import opened Options

  // ------------------------------------------------------------------- what a placeholder is

  /** Whether position i lies inside a quoted string: an odd number of quotes comes before it. */
  ghost predicate Inside(q: string, i: nat)
    requires i <= |q|
  {
    i > 0 && (Inside(q, i - 1) != (q[i - 1] == '\''))
  }

  /** The quotes before a position. */
  ghost function Quotes(q: string, i: nat): set<nat>
    requires i <= |q|
  {
    set j | 0 <= j < i && q[j] == '\''
  }

  lemma {:induction false} InsideIff(q: string, i: nat)
    requires i <= |q|
    ensures Inside(q, i) <==> |Quotes(q, i)| % 2 == 1
  {
    if i > 0 {
      InsideIff(q, i - 1);
      assert Quotes(q, i) == Quotes(q, i - 1) + if q[i - 1] == '\'' then {i - 1} else {};
    }
  }

  /** A placeholder: a question mark outside of quoted strings. */
  ghost predicate Marker(q: string, i: nat)
    requires i < |q|
  {
    q[i] == '?' && !Inside(q, i)
  }

  /** The number of placeholders from a position on. */
  ghost function Count(q: string, i: nat): nat
    requires i <= |q|
    decreases |q| - i
  {
    if i == |q| then 0 else (if Marker(q, i) then 1 else 0) + Count(q, i + 1)
  }

  /** The text from position i on, each placeholder replaced by the next parameter from number k. */
  ghost function Substitute(q: string, i: nat, params: seq<string>, k: nat): string
    requires i <= |q| && k + Count(q, i) == |params|
    decreases |q| - i
  {
    if i == |q| then ""
    else if Marker(q, i) then params[k] + Substitute(q, i + 1, params, k + 1)
    else [q[i]] + Substitute(q, i + 1, params, k)
  }

  /** The whole text with its parameters. */
  ghost function Bound(q: string, params: seq<string>): string
    requires |params| == Count(q, 0)
  {
    Substitute(q, 0, params, 0)
  }

  // ------------------------------------------------------------- what substitution keeps

  /** A stretch without placeholders is left as it is; that covers all text inside quotes. */
  lemma {:induction false} Untouched(q: string, i: nat, m: nat, params: seq<string>, k: nat)
    requires i <= m <= |q| && k + Count(q, i) == |params| && forall j :: i <= j < m ==> !Marker(q, j)
    ensures Count(q, m) == Count(q, i)
    ensures Substitute(q, i, params, k) == q[i..m] + Substitute(q, m, params, k)
    decreases m - i
  {
    if i < m {
      Untouched(q, i + 1, m, params, k);
      assert q[i..m] == [q[i]] + q[i + 1..m];
      Associate([q[i]], q[i + 1..m], Substitute(q, m, params, k));
    } else {
      assert q[i..m] == "";
    }
  }

  lemma Associate(a: string, b: string, c: string)
    ensures a + (b + c) == a + b + c
  {
  }

  /** The length of the parameters from a number on. */
  ghost function TotalLength(params: seq<string>, k: nat): nat
    requires k <= |params|
    decreases |params| - k
  {
    if k == |params| then 0 else |params[k]| + TotalLength(params, k + 1)
  }

  /** Every placeholder gives way to its parameter and nothing else changes length. */
  lemma {:induction false} SubstituteLength(q: string, i: nat, params: seq<string>, k: nat)
    requires i <= |q| && k + Count(q, i) == |params|
    ensures |Substitute(q, i, params, k)| == |q| - i - Count(q, i) + TotalLength(params, k)
    decreases |q| - i
  {
    if i < |q| {
      SubstituteLength(q, i + 1, params, if Marker(q, i) then k + 1 else k);
    }
  }

  /** The number of placeholders before a position. */
  ghost function Before(q: string, i: nat): (n: nat)
    requires i <= |q|
    ensures n <= i
  {
    if i == 0 then 0 else Before(q, i - 1) + if Marker(q, i - 1) then 1 else 0
  }

  lemma {:induction false} BeforeAndAfter(q: string, i: nat)
    requires i <= |q|
    ensures Before(q, i) + Count(q, i) == Count(q, 0)
  {
    if i > 0 {
      BeforeAndAfter(q, i - 1);
    }
  }

  /** The length of the first k parameters. */
  ghost function LengthTo(params: seq<string>, k: nat): nat
    requires k <= |params|
  {
    if k == 0 then 0 else LengthTo(params, k - 1) + |params[k - 1]|
  }

  /** The text before a position has become text of its own length without its placeholders and with
      their parameters. */
  lemma {:induction false} BoundSplit(q: string, params: seq<string>, i: nat) returns (done: string)
    requires i <= |q| && |params| == Count(q, 0)
    ensures Before(q, i) + Count(q, i) == |params|
    ensures Bound(q, params) == done + Substitute(q, i, params, Before(q, i))
    ensures |done| == i - Before(q, i) + LengthTo(params, Before(q, i))
  {
    BeforeAndAfter(q, i);
    if i == 0 {
      done := "";
    } else {
      var k := Before(q, i - 1);
      done := BoundSplit(q, params, i - 1);
      var next, rest := if Marker(q, i - 1) then params[k] else [q[i - 1]], Substitute(q, i, params, Before(q, i));
      Associate(done, next, rest);
      done := done + next;
    }
  }

  /** Where everything goes: each placeholder has become the parameter of its number, and each other
      character is there, after all that came before it. */
  lemma BoundAt(q: string, params: seq<string>, i: nat)
    requires i < |q| && |params| == Count(q, 0)
    ensures Before(q, i) <= |params|
    ensures var k := Before(q, i);
            var p := i - k + LengthTo(params, k);
            var text := Bound(q, params);
            if Marker(q, i) then k < |params| && p + |params[k]| <= |text| && text[p..p + |params[k]|] == params[k]
            else p < |text| && text[p] == q[i]
  {
    var done := BoundSplit(q, params, i);
    if Marker(q, i) {
      var k := Before(q, i);
      BoundMiddle(done, params[k], Substitute(q, i + 1, params, k + 1));
    }
  }

  lemma BoundMiddle(a: string, b: string, c: string)
    ensures (a + (b + c))[|a|..|a| + |b|] == b
  {
  }

  /** Placeholders substituted for the placeholders give the text back. */
  lemma {:induction false} SubstituteSame(q: string, i: nat, params: seq<string>, k: nat)
    requires i <= |q| && k + Count(q, i) == |params| && forall j :: k <= j < |params| ==> params[j] == "?"
    ensures Substitute(q, i, params, k) == q[i..]
    decreases |q| - i
  {
    if i < |q| {
      SubstituteSame(q, i + 1, params, if Marker(q, i) then k + 1 else k);
      assert q[i..] == [q[i]] + q[i + 1..];
    }
  }

  // -------------------------------------------------- MySQL: statements that are not prepared

  /** The positions are those of the placeholders from a position on, in order. */
  ghost predicate AreMarkers(q: string, i: nat, r: seq<nat>) {
    && (forall j :: 0 <= j < |r| ==> i <= r[j] < |q| && Marker(q, r[j]))
    && (forall j, k :: 0 <= j < k < |r| ==> r[j] < r[k])
    && (forall m :: i <= m < |q| && Marker(q, m) ==> m in r)
  }

  /** The scan of the constructor: where the placeholders are, and whether a string is left open. */
  method Scan(q: string) returns (binders: seq<nat>, inside: bool)
    ensures AreMarkers(q, 0, binders) && |binders| == Count(q, 0) && inside == Inside(q, |q|)
  {
    binders, inside := [], false;
    for i := 0 to |q|
      invariant inside == Inside(q, i) && |binders| + Count(q, i) == Count(q, 0)
      invariant forall j :: 0 <= j < |binders| ==> binders[j] < i && Marker(q, binders[j])
      invariant forall j, k :: 0 <= j < k < |binders| ==> binders[j] < binders[k]
      invariant forall m :: 0 <= m < i && Marker(q, m) ==> m in binders
    {
      if q[i] == '\'' {
        inside := !inside;
      }
      if q[i] == '?' && !inside {
        binders := binders + [i];
      }
    }
  }

  class UnpreparedStatement {
    const query: string
    const binders: seq<nat>
    var params: seq<string>

    ghost predicate Valid()
      reads this
    {
      AreMarkers(query, 0, binders) && |params| == |binders| == Count(query, 0)
    }

    /** A statement for text whose strings are all closed. */
    constructor (q: string, binders: seq<nat>)
      requires AreMarkers(q, 0, binders) && |binders| == Count(q, 0)
      ensures Valid() && query == q && forall i :: 0 <= i < |params| ==> params[i] == "NULL"
    {
      query, this.binders := q, binders;
      params := seq(|binders|, _ => "NULL");
    }

    method ResetParams()
      requires Valid()
      modifies this
      ensures Valid() && forall i :: 0 <= i < |params| ==> params[i] == "NULL"
    {
      params := seq(|binders|, _ => "NULL");
    }

    /** Binds a parameter, counted from 1; fails exactly if there is no such placeholder. */
    method Bind(col: int, v: string) returns (ok: bool)
      requires Valid()
      modifies this
      ensures Valid() && (ok <==> 1 <= col <= Count(query, 0))
      ensures params == if ok then old(params)[col - 1 := v] else old(params)
    {
      ok := 1 <= col <= |binders|;
      if ok {
        params := params[col - 1 := v];
      }
    }

    /** The space that is reserved for the text: all of the query and all of the parameters, which is
        one more per placeholder than the text takes. */
    method Reserve() returns (total: nat)
      requires Valid()
      ensures total == |Bound(query, params)| + |params|
    {
      total := |query|;
      for i := 0 to |params|
        invariant total + TotalLength(params, i) == |query| + TotalLength(params, 0)
      {
        total := total + |params[i]|;
      }
      SubstituteLength(query, 0, params, 0);
    }

    /** The text with its parameters. */
    method BindAll() returns (text: string)
      requires Valid()
      ensures text == Bound(query, params)
    {
      text := "";
      var pos := 0;
      for i := 0 to |params|
        invariant pos == if i == 0 then 0 else binders[i - 1] + 1
        invariant pos <= |query| && i + Count(query, pos) == |params|
        invariant text + Substitute(query, pos, params, i) == Bound(query, params)
      {
        UpToMarker(query, binders, params, i, pos);
        Append(text, query[pos..binders[i]], params[i], Substitute(query, binders[i] + 1, params, i + 1));
        text := text + query[pos..binders[i]] + params[i];
        pos := binders[i] + 1;
      }
      BehindMarkers(query, binders, params, pos);
      text := text + query[pos..];
    }

    /** `query` and `exec`: the text that is sent, after which the parameters are NULL again. */
    method Send() returns (text: string)
      requires Valid()
      modifies this
      ensures Valid() && text == Bound(query, old(params))
      ensures forall i :: 0 <= i < |params| ==> params[i] == "NULL"
    {
      text := BindAll();
      ResetParams();
    }
  }

  /** Between a placeholder and the next, and behind the last, there is none. */
  lemma NextMarker(q: string, r: seq<nat>, i: nat, pos: nat)
    requires AreMarkers(q, 0, r) && i <= |r| && pos == if i == 0 then 0 else r[i - 1] + 1
    ensures pos <= (if i < |r| then r[i] else |q|)
    ensures forall m :: pos <= m < (if i < |r| then r[i] else |q|) ==> !Marker(q, m)
  {
    forall m | pos <= m < (if i < |r| then r[i] else |q|) ensures m !in r {
      assert forall j :: 0 <= j < |r| ==> (j < i ==> r[j] < pos) && (j >= i ==> r[i] <= r[j]);
    }
  }

  /** The text up to the next placeholder, its parameter, and the text behind it. */
  lemma UpToMarker(q: string, r: seq<nat>, params: seq<string>, i: nat, pos: nat)
    requires AreMarkers(q, 0, r) && |r| == |params| && i < |r|
    requires pos == (if i == 0 then 0 else r[i - 1] + 1) <= |q| && i + Count(q, pos) == |params|
    ensures pos <= r[i] < |q| && i + 1 + Count(q, r[i] + 1) == |params|
    ensures Substitute(q, pos, params, i) == q[pos..r[i]] + (params[i] + Substitute(q, r[i] + 1, params, i + 1))
  {
    NextMarker(q, r, i, pos);
    Untouched(q, pos, r[i], params, i);
  }

  lemma BehindMarkers(q: string, r: seq<nat>, params: seq<string>, pos: nat)
    requires AreMarkers(q, 0, r) && |r| == |params|
    requires pos == (if r == [] then 0 else r[|r| - 1] + 1) <= |q| && Count(q, pos) == 0
    ensures Substitute(q, pos, params, |params|) == q[pos..]
  {
    NextMarker(q, r, |r|, pos);
    Untouched(q, pos, |q|, params, |params|);
    assert q[pos..|q|] + "" == q[pos..];
  }

  lemma Append(a: string, b: string, c: string, d: string)
    ensures a + (b + (c + d)) == a + b + c + d
  {
  }

  /** The constructor, which throws exactly if a string is left open. */
  method NewStatement(q: string) returns (st: Option<UnpreparedStatement>)
    ensures st.None? <==> Inside(q, |q|)
    ensures st.Some? ==> st.value.Valid() && st.value.query == q && fresh(st.value)
  {
    var binders, inside := Scan(q);
    if inside {
      return None;
    }
    var s := new UnpreparedStatement(q, binders);
    st := Some(s);
  }

  // ------------------------------------------------------------------ PostgreSQL: numbering

  function Decimal(n: nat): string {
    if n < 10 then [Digit(n)] else Decimal(n / 10) + [Digit(n % 10)]
  }

  function Digit(d: nat): char
    requires d < 10
  {
    "0123456789"[d]
  }

  ghost function Value(s: string): int {
    if s == "" then 0 else 10 * Value(s[..|s| - 1]) + (s[|s| - 1] as int - '0' as int)
  }

  /** The decimal form of a number stands for that number, in digits without needless zeros. */
  lemma {:induction false} DecimalValue(n: nat)
    ensures Value(Decimal(n)) == n
    ensures Decimal(n) != "" && forall i :: 0 <= i < |Decimal(n)| ==> '0' <= Decimal(n)[i] <= '9'
    ensures n > 0 ==> Decimal(n)[0] != '0'
  {
    assert forall d: nat :: d < 10 ==> Digit(d) as int - '0' as int == d;
    if n < 10 {
      assert Decimal(n)[..0] == "";
    } else {
      DecimalValue(n / 10);
      assert Decimal(n)[..|Decimal(n)| - 1] == Decimal(n / 10);
    }
  }

  /** The names $1, $2, ... of placeholders. */
  ghost function Numbered(n: nat): (r: seq<string>)
    ensures |r| == n && forall i :: 0 <= i < n ==> r[i] == "$" + Decimal(i + 1)
  {
    if n == 0 then [] else Numbered(n - 1) + ["$" + Decimal(n)]
  }

  /** The rewriting loop of the constructor: the placeholders, which are the same as for MySQL,
      become $1, $2, ... in order.  Strings that are left open are not an error here. */
  method Rewrite(q: string) returns (text: string, params: nat)
    ensures params == Count(q, 0) && text == Bound(q, Numbered(params))
  {
    text, params := "", 0;
    var inside := false;
    ghost var names := Numbered(Count(q, 0));
    for i := 0 to |q|
      invariant inside == Inside(q, i) && params + Count(q, i) == |names|
      invariant text + Substitute(q, i, names, params) == Bound(q, names)
    {
      var c := q[i];
      if c == '\'' {
        inside := !inside;
      }
      if !inside && c == '?' {
        Associate(text, names[params], Substitute(q, i + 1, names, params + 1));
        params := params + 1;
        text := text + ("$" + Decimal(params));
      } else {
        Associate(text, [c], Substitute(q, i + 1, names, params));
        text := text + [c];
      }
    }
    assert text + "" == text;
  }
}

/** The cache of prepared statements of a database connection, and who owns each statement. */
module StatementsCache {
  import opened Options
  import opened KeyedList

  /** A prepared statement object; the identity tells apart statements of the same query. */
  datatype Statement = Statement(id: nat, query: string)

  // --------------------------------------------------------------- the cache, as specified

  /** The cached statements by query, most recently returned first. */
  type Recent = seq<(string, Statement)>

  ghost function AfterInsert(l: Recent, max: nat, st: Statement): Recent {
    [(st.query, st)] +
    if Has(l, st.query) then RemoveAt(l, Find(l, st.query))
    else if l != [] && |l| >= max then l[..|l| - 1]
    else l
  }

  /** The statement that an insertion pushes out. */
  ghost function Dropped(l: Recent, max: nat, st: Statement): Option<Statement> {
    if Has(l, st.query) then Some(l[Find(l, st.query)].1)
    else if l != [] && |l| >= max then Some(l[|l| - 1].1)
    else None
  }

  ghost function AfterFetch(l: Recent, q: string): Recent {
    if Has(l, q) then RemoveAt(l, Find(l, q)) else l
  }

  ghost function Fetched(l: Recent, q: string): Option<Statement> {
    if Has(l, q) then Some(l[Find(l, q)].1) else None
  }

  // ----------------------------------------------------------------- statements_cache::data

  datatype Entry = Entry(stat: Statement, lruPtr: nat)

  ghost function Stats(m: map<string, Entry>): map<string, Statement> {
    map q | q in m :: m[q].stat
  }

  ghost function Pointers(m: map<string, Entry>): map<string, nat> {
    map q | q in m :: m[q].lruPtr
  }

  /** The projections of the map follow its updates. */
  lemma Projections(m: map<string, Entry>, q: string, e: Entry)
    ensures Stats(m[q := e]) == Stats(m)[q := e.stat] && Stats(m - {q}) == Stats(m) - {q}
    ensures Pointers(m[q := e]) == Pointers(m)[q := e.lruPtr] && Pointers(m - {q}) == Pointers(m) - {q}
  {
  }

  /** The map and the list hold the same queries, each once, each entry pointing at its own node. */
  ghost predicate Linked(lru: seq<Node<string>>, m: map<string, Entry>, next: nat) {
    Indexed(lru, Pointers(m), next) && Match(Keys(lru), Stats(m))
  }

  ghost function Listed(lru: seq<Node<string>>, m: map<string, Entry>, next: nat): Recent
    requires Linked(lru, m, next)
  {
    Pairs(Keys(lru), Stats(m))
  }

  lemma LinkedHas(lru: seq<Node<string>>, m: map<string, Entry>, next: nat, q: string)
    requires Linked(lru, m, next)
    ensures Has(Listed(lru, m, next), q) <==> q in m
    ensures |Listed(lru, m, next)| == |lru|
  {
    MatchHas(Keys(lru), Stats(m), q);
  }

  /** Erasing an entry and its node. */
  lemma Unlink(lru: seq<Node<string>>, m: map<string, Entry>, next: nat, q: string)
    requires Linked(lru, m, next) && q in m
    ensures var lru' := EraseNode(lru, m[q].lruPtr);
            var l := Listed(lru, m, next);
            && |lru'| == |lru| - 1
            && Linked(lru', m - {q}, next)
            && Has(l, q) && l[Find(l, q)] == (q, m[q].stat)
            && Listed(lru', m - {q}, next) == RemoveAt(l, Find(l, q))
  {
    var p := EraseKey(lru, Pointers(m), next, q);
    Projections(m, q, m[q]);
    PairAt(Keys(lru), Stats(m), p);
    DropPair(Keys(lru), Stats(m), p);
  }

  /** Erasing the last node and its entry. */
  lemma UnlinkLast(lru: seq<Node<string>>, m: map<string, Entry>, next: nat)
    requires Linked(lru, m, next) && lru != []
    ensures var n := |lru| - 1; var q := lru[n].key;
            var l := Listed(lru, m, next);
            && Linked(lru[..n], m - {q}, next)
            && q in m && l[n] == (q, m[q].stat)
            && Listed(lru[..n], m - {q}, next) == l[..n]
  {
    var n := |lru| - 1;
    var q := lru[n].key;
    IndexedErase(lru, Pointers(m), next, n);
    assert RemoveAt(lru, n) == lru[..n];
    PairAt(Keys(lru), Stats(m), n);
    DropPair(Keys(lru), Stats(m), n);
    Projections(m, q, m[q]);
    assert RemoveAt(Listed(lru, m, next), n) == Listed(lru, m, next)[..n];
  }

  /** Adding an entry with a node at the front. */
  lemma Link(lru: seq<Node<string>>, m: map<string, Entry>, next: nat, st: Statement)
    requires Linked(lru, m, next) && st.query !in m
    ensures var lru' := [Node(next, st.query)] + lru;
            var m' := m[st.query := Entry(st, next)];
            && Linked(lru', m', next + 1)
            && Listed(lru', m', next + 1) == [(st.query, st)] + Listed(lru, m, next)
  {
    IndexedFront(lru, Pointers(m), next, st.query);
    AddFront(Keys(lru), Stats(m), st.query, st);
    Projections(m, st.query, Entry(st, next));
  }

  /** Giving an entry another statement and moving its node to the front. */
  lemma Relink(lru: seq<Node<string>>, m: map<string, Entry>, next: nat, st: Statement)
    requires Linked(lru, m, next) && st.query in m
    ensures var lru' := [Node(next, st.query)] + EraseNode(lru, m[st.query].lruPtr);
            var m' := m[st.query := Entry(st, next)];
            var l := Listed(lru, m, next);
            && |lru'| == |lru|
            && Linked(lru', m', next + 1)
            && Has(l, st.query) && l[Find(l, st.query)].1 == m[st.query].stat
            && Listed(lru', m', next + 1) == [(st.query, st)] + RemoveAt(l, Find(l, st.query))
  {
    var q, e := st.query, Entry(st, next);
    Unlink(lru, m, next, q);
    assert m[q := e] == (m - {q})[q := e];
    Link(EraseNode(lru, m[q].lruPtr), m - {q}, next, st);
  }

  class Data {
    var statements: map<string, Entry>
    var lru: seq<Node<string>>
    var size: nat
    var maxSize: nat
    var next: nat

    ghost predicate Valid()
      reads this
    {
      && Linked(lru, statements, next)
      && size == |lru|
      && size <= maxSize
      && maxSize != 0
    }

    ghost function Contents(): (l: Recent)
      requires Valid()
      reads this
      ensures |l| <= maxSize
    {
      Listed(lru, statements, next)
    }

    constructor (max: nat)
      requires max != 0
      ensures Valid() && Contents() == [] && maxSize == max
    {
      statements, lru, size, maxSize, next := map[], [], 0, max, 0;
    }

    /** The branch of `insert` for a query that is cached. */
    method Replace(st: Statement) returns (dropped: Statement)
      requires Valid() && st.query in statements
      modifies this
      ensures Valid() && maxSize == old(maxSize)
      ensures Contents() == AfterInsert(old(Contents()), maxSize, st)
      ensures Dropped(old(Contents()), maxSize, st) == Some(dropped)
    {
      Relink(lru, statements, next, st);
      var p := statements[st.query];
      dropped := p.stat;
      lru := [Node(next, st.query)] + EraseNode(lru, p.lruPtr);
      statements := statements[st.query := p.(stat := st, lruPtr := next)];
      next := next + 1;
    }

    /** The eviction of the statement that was returned longest ago. */
    method Evict() returns (dropped: Statement)
      requires Valid() && size > 0
      modifies this
      ensures Valid() && maxSize == old(maxSize) && size == old(size) - 1
      ensures var l := old(Contents()); Contents() == l[..|l| - 1] && dropped == l[|l| - 1].1
      ensures statements.Keys <= old(statements.Keys)
    {
      UnlinkLast(lru, statements, next);
      var back := lru[|lru| - 1].key;
      dropped := statements[back].stat;
      statements := statements - {back};
      lru := lru[..|lru| - 1];
      size := size - 1;
    }

    /** Adds an entry for a query that is not cached. */
    method Push(st: Statement)
      requires Valid() && st.query !in statements && size < maxSize
      modifies this
      ensures Valid() && maxSize == old(maxSize) && Contents() == [(st.query, st)] + old(Contents())
    {
      Link(lru, statements, next, st);
      statements := statements[st.query := Entry(st, next)];
      lru := [Node(next, st.query)] + lru;
      next := next + 1;
      size := size + 1;
    }

    /** Takes a statement back; the result is the one whose last reference this drops, if any. */
    method Insert(st: Statement) returns (dropped: Option<Statement>)
      requires Valid()
      modifies this
      ensures Valid() && maxSize == old(maxSize)
      ensures Contents() == AfterInsert(old(Contents()), maxSize, st)
      ensures dropped == Dropped(old(Contents()), maxSize, st)
    {
      LinkedHas(lru, statements, next, st.query);
      if st.query in statements {
        var d := Replace(st);
        return Some(d);
      }
      dropped := None;
      if size > 0 && size >= maxSize {
        var d := Evict();
        dropped := Some(d);
      }
      Push(st);
    }

    /** Hands out the statement of a query, which leaves the cache. */
    method Fetch(q: string) returns (st: Option<Statement>)
      requires Valid()
      modifies this
      ensures Valid() && maxSize == old(maxSize)
      ensures Contents() == AfterFetch(old(Contents()), q)
      ensures st == Fetched(old(Contents()), q)
    {
      LinkedHas(lru, statements, next, q);
      if q !in statements {
        return None;
      }
      var found := Remove(q);
      st := Some(found);
    }

    /** The branch of `fetch` for a query that is cached. */
    method Remove(q: string) returns (st: Statement)
      requires Valid() && q in statements
      modifies this
      ensures Valid() && maxSize == old(maxSize)
      ensures var l := old(Contents());
              Has(l, q) && st == l[Find(l, q)].1 && Contents() == RemoveAt(l, Find(l, q))
    {
      Unlink(lru, statements, next, q);
      var p := statements[q];
      st := p.stat;
      lru := EraseNode(lru, p.lruPtr);
      statements := statements - {q};
      size := size - 1;
    }

    method Clear()
      requires Valid()
      modifies this
      ensures Valid() && maxSize == old(maxSize) && Contents() == []
    {
      lru, statements, size := [], map[], 0;
    }
  }

  // -------------------------------------------------------------- ownership, as specified

  /** A connection: the cached statements, those whose `cache_` field is set, those that callers
      hold, those that were deleted, and the query of every statement ever prepared. */
  datatype Store = Store(recent: Recent, attached: set<Statement>, lent: set<Statement>,
                         deleted: set<Statement>, prepared: seq<string>)

  ghost function Cached(l: Recent): set<Statement> {
    set kv | kv in l :: kv.1
  }

  ghost predicate IsPrepared(s: Store, st: Statement) {
    st.id < |s.prepared| && s.prepared[st.id] == st.query
  }

  /** How many owners a statement has; a deleted one counts as owned by nobody else. */
  ghost function Owners(s: Store, st: Statement): nat {
    (if st in s.lent then 1 else 0) + (if st in Cached(s.recent) then 1 else 0) + (if st in s.deleted then 1 else 0)
  }

  /** Every statement ever prepared is in exactly one place, every cached one under its query. */
  ghost predicate Owned(s: Store) {
    && Distinct(s.recent)
    && (forall i :: 0 <= i < |s.recent| ==> s.recent[i].0 == s.recent[i].1.query)
    && (forall st :: Owners(s, st) == if IsPrepared(s, st) then 1 else 0)
    && s.attached <= s.lent
    && |s.lent| + |s.recent| + |s.deleted| == |s.prepared|
  }

  ghost function AfterPrepare(s: Store, q: string): (Store, Statement) {
    var st := Statement(|s.prepared|, q);
    (s.(prepared := s.prepared + [q], lent := s.lent + {st}), st)
  }

  /** What a request for a prepared statement does, and the statement that it gives. */
  ghost function AfterGet(s: Store, max: nat, q: string): (Store, Statement) {
    if max == 0 then AfterPrepare(s, q)
    else
      match Fetched(s.recent, q)
      case Some(st) =>
        (s.(recent := AfterFetch(s.recent, q), lent := s.lent + {st}, attached := s.attached + {st}), st)
      case None =>
        var (t, st) := AfterPrepare(s, q);
        (t.(attached := s.attached + {st}), st)
  }

  /** What disposing of a statement does: one that came from the cache goes back to it, any other
      one is deleted, and so is what it pushes out of the cache. */
  ghost function AfterDispose(s: Store, max: nat, st: Statement): Store {
    if st in s.attached then
      s.(recent := AfterInsert(s.recent, max, st), attached := s.attached - {st},
         deleted := s.deleted + AsSet(Dropped(s.recent, max, st)))
    else
      s.(deleted := s.deleted + {st})
  }

  ghost function AsSet<T>(o: Option<T>): set<T> {
    if o.Some? then {o.value} else {}
  }

  /** What happens when the last reference of a caller to a statement goes. */
  ghost function AfterRelease(s: Store, max: nat, st: Statement): Store {
    AfterDispose(s.(lent := s.lent - {st}), max, st)
  }

  ghost function AfterClear(s: Store): Store {
    s.(recent := [], deleted := s.deleted + Cached(s.recent))
  }

  lemma PrepareOwned(s: Store, q: string)
    requires Owned(s)
    ensures Owned(AfterPrepare(s, q).0)
  {
    var (t, st) := AfterPrepare(s, q);
    assert Owners(s, st) == 0;
    forall x ensures Owners(t, x) == if IsPrepared(t, x) then 1 else 0 {
      assert Owners(s, x) == if IsPrepared(s, x) then 1 else 0;
    }
  }

  lemma CachedRemove(l: Recent, p: nat)
    requires Distinct(l) && (forall i :: 0 <= i < |l| ==> l[i].0 == l[i].1.query) && p < |l|
    ensures Cached(RemoveAt(l, p)) == Cached(l) - {l[p].1}
    ensures Distinct(RemoveAt(l, p))
    ensures forall i :: 0 <= i < |l| - 1 ==> RemoveAt(l, p)[i].0 == RemoveAt(l, p)[i].1.query
  {
    var r := RemoveAt(l, p);
    assert forall i :: 0 <= i < |r| ==> r[i] == l[if i < p then i else i + 1];
    forall kv | kv in l && kv.1 != l[p].1 ensures kv in r {
      RemoveOther(l, p, kv);
    }
  }

  lemma FoundIsCached(l: Recent, p: nat)
    requires p < |l|
    ensures l[p].1 in Cached(l)
  {
    assert l[p] in l;
  }

  /** A cached statement that is handed out. */
  lemma FetchOwned(s: Store, q: string)
    requires Owned(s) && Has(s.recent, q)
    ensures var st := s.recent[Find(s.recent, q)].1;
            var t := s.(recent := AfterFetch(s.recent, q), lent := s.lent + {st}, attached := s.attached + {st});
            Owned(t) && st.query == q && st !in s.lent && st !in s.deleted && st !in Cached(t.recent)
  {
    var p := Find(s.recent, q);
    var st := s.recent[p].1;
    var t := s.(recent := AfterFetch(s.recent, q), lent := s.lent + {st}, attached := s.attached + {st});
    FoundIsCached(s.recent, p);
    CachedRemove(s.recent, p);
    assert Owners(s, st) == 1;
    forall x ensures Owners(t, x) == if IsPrepared(t, x) then 1 else 0 {
      assert Owners(s, x) == if IsPrepared(s, x) then 1 else 0;
    }
  }

  lemma AttachOwned(s: Store, st: Statement)
    requires Owned(s) && st in s.lent
    ensures Owned(s.(attached := s.attached + {st}))
  {
    var t := s.(attached := s.attached + {st});
    forall x ensures Owners(t, x) == if IsPrepared(t, x) then 1 else 0 {
      assert Owners(s, x) == if IsPrepared(s, x) then 1 else 0;
    }
  }

  /** A request keeps the ownership and gives a statement of the query that nobody else has. */
  lemma GetOwned(s: Store, max: nat, q: string)
    requires Owned(s)
    ensures var (t, st) := AfterGet(s, max, q);
            Owned(t) && st.query == q && st !in s.lent && st !in s.deleted && st in t.lent && st !in Cached(t.recent)
  {
    if max != 0 && Has(s.recent, q) {
      FetchOwned(s, q);
    } else {
      PrepareOwned(s, q);
      var (t, st) := AfterPrepare(s, q);
      assert Owners(s, st) == 0;
      AttachOwned(t, st);
    }
  }

  /** One more statement at the front, for a query that is not cached. */
  lemma CachedFront(l: Recent, st: Statement)
    requires Distinct(l) && (forall i :: 0 <= i < |l| ==> l[i].0 == l[i].1.query) && !Has(l, st.query)
    ensures var l' := [(st.query, st)] + l;
            && Distinct(l')
            && (forall i :: 0 <= i < |l'| ==> l'[i].0 == l'[i].1.query)
            && Cached(l') == Cached(l) + {st}
  {
    var l' := [(st.query, st)] + l;
    assert forall kv :: kv in l' <==> kv == (st.query, st) || kv in l;
  }

  /** The cache after an insertion: the statement in, the dropped one out. */
  lemma CachedInsert(l: Recent, max: nat, st: Statement)
    requires Distinct(l) && (forall i :: 0 <= i < |l| ==> l[i].0 == l[i].1.query) && st !in Cached(l)
    ensures var l' := AfterInsert(l, max, st);
            && Distinct(l')
            && (forall i :: 0 <= i < |l'| ==> l'[i].0 == l'[i].1.query)
            && match Dropped(l, max, st)
               case Some(d) => d in Cached(l) && |l'| == |l| && Cached(l') == Cached(l) - {d} + {st}
               case None => |l'| == |l| + 1 && Cached(l') == Cached(l) + {st}
  {
    if Has(l, st.query) {
      var p := Find(l, st.query);
      CachedRemove(l, p);
      FoundIsCached(l, p);
      RemovedKey(l, p);
      CachedFront(RemoveAt(l, p), st);
    } else if l != [] && |l| >= max {
      CachedRemove(l, |l| - 1);
      FoundIsCached(l, |l| - 1);
      assert RemoveAt(l, |l| - 1) == l[..|l| - 1];
      CachedFront(l[..|l| - 1], st);
    } else {
      CachedFront(l, st);
    }
  }

  /** A release keeps the ownership: the statement goes to the cache or is deleted, and what it
      pushes out of the cache is deleted. */
  lemma ReleaseOwned(s: Store, max: nat, st: Statement)
    requires Owned(s) && st in s.lent
    ensures Owned(AfterRelease(s, max, st))
  {
    var t := AfterRelease(s, max, st);
    assert Owners(s, st) == 1;
    if st in s.attached {
      CachedInsert(s.recent, max, st);
      DroppedIsCached(s, max, st);
    }
    forall x ensures Owners(t, x) == if IsPrepared(t, x) then 1 else 0 {
      assert Owners(s, x) == if IsPrepared(s, x) then 1 else 0;
    }
  }

  lemma {:induction false} CachedSize(l: Recent)
    requires Distinct(l) && forall i :: 0 <= i < |l| ==> l[i].0 == l[i].1.query
    ensures |Cached(l)| == |l|
  {
    if l != [] {
      CachedRemove(l, 0);
      assert RemoveAt(l, 0) == l[1..];
      CachedSize(l[1..]);
      FoundIsCached(l, 0);
    }
  }

  lemma ClearOwned(s: Store)
    requires Owned(s)
    ensures Owned(AfterClear(s))
  {
    var t := AfterClear(s);
    CachedSize(s.recent);
    forall x ensures Owners(t, x) == if IsPrepared(t, x) then 1 else 0 {
      assert Owners(s, x) == if IsPrepared(s, x) then 1 else 0;
    }
    assert s.deleted !! Cached(s.recent) by {
      forall x | x in s.deleted ensures x !in Cached(s.recent) {
        assert Owners(s, x) <= 1;
      }
    }
  }

  // ---------------------------------------------------------------------------- whole runs

  datatype Op = Get(query: string) | GetUncached(query: string) | Release(stat: Statement) | ClearCache

  ghost function Apply(s: Store, max: nat, op: Op): Store {
    match op
    case Get(q) => AfterGet(s, max, q).0
    case GetUncached(q) => AfterPrepare(s, q).0
    case Release(st) => AfterRelease(s, max, st)
    case ClearCache => AfterClear(s)
  }

  /** Only a statement that is held can be released, and only a cache that exists cleared. */
  ghost predicate Allowed(s: Store, max: nat, op: Op) {
    match op
    case Release(st) => st in s.lent
    case ClearCache => max != 0
    case _ => true
  }

  const EMPTY := Store([], {}, {}, {}, [])

  ghost function Run(max: nat, ops: seq<Op>): Store {
    if ops == [] then EMPTY else Apply(Run(max, ops[..|ops| - 1]), max, ops[|ops| - 1])
  }

  ghost predicate Legal(max: nat, ops: seq<Op>) {
    ops != [] ==>
      Legal(max, ops[..|ops| - 1]) && Allowed(Run(max, ops[..|ops| - 1]), max, ops[|ops| - 1])
  }

  /** When a run last released a statement, or -1. */
  ghost function LastRelease(ops: seq<Op>, st: Statement): (t: int)
    ensures -1 <= t < |ops|
  {
    if ops == [] then -1
    else if ops[|ops| - 1] == Release(st) then |ops| - 1
    else LastRelease(ops[..|ops| - 1], st)
  }

  /** The cache lists its statements from the latest released to the earliest. */
  ghost predicate ByRelease(l: Recent, ops: seq<Op>) {
    && (forall i :: 0 <= i < |l| ==> LastRelease(ops, l[i].1) >= 0)
    && (forall i, j :: 0 <= i < j < |l| ==> LastRelease(ops, l[i].1) > LastRelease(ops, l[j].1))
  }

  ghost predicate Bounded(s: Store, max: nat) {
    |s.recent| <= max && (max == 0 ==> s.attached == {})
  }

  lemma ByReleaseSkip(l: Recent, ops: seq<Op>, op: Op)
    requires ByRelease(l, ops) && forall i :: 0 <= i < |l| ==> op != Release(l[i].1)
    ensures ByRelease(l, ops + [op])
  {
    assert (ops + [op])[..|ops|] == ops;
    assert forall i :: 0 <= i < |l| ==> LastRelease(ops + [op], l[i].1) == LastRelease(ops, l[i].1);
  }

  lemma ByReleaseRemove(l: Recent, ops: seq<Op>, p: nat)
    requires ByRelease(l, ops) && p < |l|
    ensures ByRelease(RemoveAt(l, p), ops)
  {
    var r := RemoveAt(l, p);
    assert forall i :: 0 <= i < |r| ==> r[i] == l[if i < p then i else i + 1];
  }

  lemma ByReleaseFront(l: Recent, ops: seq<Op>, st: Statement)
    requires ByRelease(l, ops) && forall i :: 0 <= i < |l| ==> l[i].1 != st
    ensures ByRelease([(st.query, st)] + l, ops + [Release(st)])
  {
    var op := Release(st);
    var r := [(st.query, st)] + l;
    ByReleaseSkip(l, ops, op);
    assert (ops + [op])[..|ops|] == ops;
    assert forall i :: 1 <= i < |r| ==> r[i] == l[i - 1];
  }

  lemma ByReleaseInsert(l: Recent, max: nat, ops: seq<Op>, st: Statement)
    requires ByRelease(l, ops) && st !in Cached(l)
    ensures ByRelease(AfterInsert(l, max, st), ops + [Release(st)])
  {
    assert forall i :: 0 <= i < |l| ==> l[i] in l;
    if Has(l, st.query) {
      var p := Find(l, st.query);
      ByReleaseRemove(l, ops, p);
      ByReleaseFront(RemoveAt(l, p), ops, st);
    } else if l != [] && |l| >= max {
      ByReleaseFront(l[..|l| - 1], ops, st);
    } else {
      ByReleaseFront(l, ops, st);
    }
  }

  lemma GetByRelease(s: Store, max: nat, ops: seq<Op>, q: string)
    requires ByRelease(s.recent, ops)
    ensures ByRelease(AfterGet(s, max, q).0.recent, ops + [Get(q)])
  {
    if max != 0 && Has(s.recent, q) {
      ByReleaseRemove(s.recent, ops, Find(s.recent, q));
    }
    ByReleaseSkip(AfterGet(s, max, q).0.recent, ops, Get(q));
  }

  lemma ReleaseByRelease(s: Store, max: nat, ops: seq<Op>, st: Statement)
    requires Owned(s) && ByRelease(s.recent, ops) && st in s.lent
    ensures ByRelease(AfterRelease(s, max, st).recent, ops + [Release(st)])
  {
    assert Owners(s, st) == 1;
    if st in s.attached {
      ByReleaseInsert(s.recent, max, ops, st);
    } else {
      assert forall i :: 0 <= i < |s.recent| ==> s.recent[i] in s.recent;
      ByReleaseSkip(s.recent, ops, Release(st));
    }
  }

  lemma StepKeeps(s: Store, max: nat, ops: seq<Op>, op: Op)
    requires Owned(s) && Bounded(s, max) && ByRelease(s.recent, ops) && Allowed(s, max, op)
    ensures var t := Apply(s, max, op); Owned(t) && Bounded(t, max) && ByRelease(t.recent, ops + [op])
  {
    match op
    case Get(q) =>
      GetOwned(s, max, q);
      GetBounded(s, max, q);
      GetByRelease(s, max, ops, q);
    case GetUncached(q) =>
      PrepareOwned(s, q);
      ByReleaseSkip(s.recent, ops, op);
    case Release(st) =>
      ReleaseOwned(s, max, st);
      ReleaseBounded(s, max, st);
      ReleaseByRelease(s, max, ops, st);
    case ClearCache =>
      ClearOwned(s);
  }

  /** After every run: each statement ever prepared is held by one caller, cached once or deleted
      once, and never two of these; there are as many as were prepared; the cache is no larger
      than allowed; and it lists its statements by their last release. */
  lemma {:induction false} RunKeeps(max: nat, ops: seq<Op>)
    requires Legal(max, ops)
    ensures var s := Run(max, ops); Owned(s) && Bounded(s, max) && ByRelease(s.recent, ops)
  {
    if ops == [] {
      EmptyOwned();
    } else {
      var before, op := ops[..|ops| - 1], ops[|ops| - 1];
      assert before + [op] == ops;
      RunKeeps(max, before);
      StepKeeps(Run(max, before), max, before, op);
    }
  }

  lemma EmptyOwned()
    ensures Owned(EMPTY)
  {
    assert forall st :: Owners(EMPTY, st) == 0;
  }

  // ------------------------------------------------------- what a caller sees of a connection

  /** A request gives the cached statement of the query if there is one, and prepares nothing; or else
      it prepares one.  With a cache the statement will go back there. */
  ghost predicate GetSeen(s: Store, t: Store, max: nat, q: string, st: Statement) {
    && t.lent == s.lent + {st} && t.deleted == s.deleted
    && t.attached == (if max == 0 then s.attached else s.attached + {st})
    && Cached(t.recent) == Cached(s.recent) - {st}
    && (forall x :: x in Cached(s.recent) && x.query == q ==> st == x && t.prepared == s.prepared)
    && ((forall x :: x in Cached(s.recent) ==> x.query != q) ==>
          st == Statement(|s.prepared|, q) && t.prepared == s.prepared + [q])
  }

  lemma CachedAt(l: Recent, x: Statement) returns (p: nat)
    requires x in Cached(l)
    ensures p < |l| && l[p].1 == x
  {
    var kv :| kv in l && kv.1 == x;
    p :| p < |l| && l[p] == kv;
  }

  /** The statement of a query in the cache, found by position and by membership. */
  lemma CachedQuery(l: Recent, q: string)
    requires Distinct(l) && forall i :: 0 <= i < |l| ==> l[i].0 == l[i].1.query
    ensures Has(l, q) ==> l[Find(l, q)].1 in Cached(l) && l[Find(l, q)].1.query == q
    ensures forall x :: x in Cached(l) && x.query == q ==> Has(l, q) && x == l[Find(l, q)].1
  {
    if Has(l, q) {
      FoundIsCached(l, Find(l, q));
    }
    forall x | x in Cached(l) && x.query == q ensures Has(l, q) && x == l[Find(l, q)].1 {
      var p := CachedAt(l, x);
    }
  }

  lemma GetShows(s: Store, max: nat, q: string)
    requires Owned(s) && Bounded(s, max)
    ensures var (t, st) := AfterGet(s, max, q); GetSeen(s, t, max, q, st)
  {
    CachedQuery(s.recent, q);
    if max != 0 && Has(s.recent, q) {
      CachedRemove(s.recent, Find(s.recent, q));
    } else {
      assert Owners(s, Statement(|s.prepared|, q)) == 0;
    }
  }

  /** A release: a statement that did not come from the cache is deleted; any other one is the first of
      the cache again, and one that is pushed out for it is deleted: the one of the same query, or, if
      there is none and the cache is full, the one that was returned longest ago. */
  ghost predicate ReleaseSeen(s: Store, t: Store, max: nat, st: Statement) {
    && t.lent == s.lent - {st} && t.attached == s.attached - {st} && t.prepared == s.prepared
    && if st !in s.attached then t.recent == s.recent && t.deleted == s.deleted + {st}
       else
         && t.recent != [] && t.recent[0] == (st.query, st)
         && t.deleted >= s.deleted && Cached(t.recent) == Cached(s.recent) + {st} - (t.deleted - s.deleted)
         && (forall x :: x in Cached(s.recent) && x.query == st.query ==> t.deleted == s.deleted + {x})
         && ((forall x :: x in Cached(s.recent) ==> x.query != st.query) ==>
               t.deleted == s.deleted + if |s.recent| < max || s.recent == [] then {} else {s.recent[|s.recent| - 1].1})
  }

  /** What an insertion pushes out. */
  lemma DroppedIs(l: Recent, max: nat, st: Statement)
    requires Distinct(l) && forall i :: 0 <= i < |l| ==> l[i].0 == l[i].1.query
    ensures var d := AsSet(Dropped(l, max, st));
            && (forall x :: x in Cached(l) && x.query == st.query ==> d == {x})
            && ((forall x :: x in Cached(l) ==> x.query != st.query) ==>
                  d == if |l| < max || l == [] then {} else {l[|l| - 1].1})
  {
    CachedQuery(l, st.query);
  }

  lemma InsertShows(l: Recent, max: nat, st: Statement)
    requires Distinct(l) && (forall i :: 0 <= i < |l| ==> l[i].0 == l[i].1.query) && st !in Cached(l)
    ensures Cached(AfterInsert(l, max, st)) == Cached(l) + {st} - AsSet(Dropped(l, max, st))
  {
    CachedInsert(l, max, st);
  }

  lemma ReleaseShows(s: Store, max: nat, st: Statement)
    requires Owned(s) && Bounded(s, max) && st in s.lent
    ensures ReleaseSeen(s, AfterRelease(s, max, st), max, st)
  {
    assert Owners(s, st) == 1;
    if st in s.attached {
      var d := AsSet(Dropped(s.recent, max, st));
      DroppedIs(s.recent, max, st);
      InsertShows(s.recent, max, st);
      DroppedIsCached(s, max, st);
      assert s.deleted + d - s.deleted == d;
    }
  }

  // ------------------------------------------------------------------------ the connection

  class Connection {
    const cache: Data?
    const limit: nat
    var attached: set<Statement>
    var lent: set<Statement>
    var deleted: set<Statement>
    var prepared: seq<string>

    ghost predicate Consistent()
      reads cache
    {
      if cache == null then limit == 0 else cache.Valid() && cache.maxSize == limit
    }

    ghost function Recents(): Recent
      requires Consistent()
      reads cache
    {
      if cache == null then [] else cache.Contents()
    }

    ghost function View(): Store
      requires Consistent()
      reads this, cache
    {
      Store(Recents(), attached, lent, deleted, prepared)
    }

    ghost predicate Valid()
      reads this, cache
    {
      Consistent() && Owned(View()) && Bounded(View(), limit)
    }

    /** `@stmt_cache_size` is the size of the cache; 0 or less means that there is none. */
    constructor (cacheSize: int)
      ensures Valid() && View() == EMPTY && limit == (if cacheSize > 0 then cacheSize else 0)
      ensures cache != null ==> fresh(cache)
    {
      limit := if cacheSize > 0 then cacheSize else 0;
      cache := null;
      if cacheSize > 0 {
        cache := new Data(cacheSize);
      }
      attached, lent, deleted, prepared := {}, {}, {}, [];
      new;
      EmptyOwned();
    }

    /** A driver prepares a new statement; the caller gets the only reference. */
    method Prepare(q: string) returns (st: Statement)
      requires Valid()
      modifies this
      ensures Valid() && (View(), st) == AfterPrepare(old(View()), q)
    {
      PrepareOwned(View(), q);
      st := Statement(|prepared|, q);
      prepared := prepared + [q];
      lent := lent + {st};
    }

    /** `statements_cache::fetch`. */
    method Fetch(q: string) returns (st: Option<Statement>)
      requires Consistent()
      modifies cache
      ensures Consistent() && st == Fetched(old(Recents()), q) && Recents() == AfterFetch(old(Recents()), q)
    {
      if cache == null {
        return None;
      }
      st := cache.Fetch(q);
    }

    /** `statements_cache::put`; the result is the statement that this drops. */
    method Put(p: Statement) returns (dropped: Option<Statement>)
      requires Consistent() && cache != null
      modifies cache
      ensures Consistent() && dropped == Dropped(old(Recents()), limit, p)
      ensures Recents() == AfterInsert(old(Recents()), limit, p)
    {
      dropped := cache.Insert(p);
    }

    /** Gives a prepared statement of the query, a cached one if there is one. */
    method GetPrepared(q: string) returns (st: Statement)
      requires Valid()
      modifies this, cache
      ensures Valid() && GetSeen(old(View()), View(), limit, q, st)
      ensures (View(), st) == AfterGet(old(View()), limit, q)
    {
      GetShows(View(), limit, q);
      GetOwned(View(), limit, q);
      GetBounded(View(), limit, q);
      if cache == null {
        st := Prepare(q);
      } else {
        st := Take(q);
      }
    }

    /** The branch for a connection with a cache. */
    method Take(q: string) returns (st: Statement)
      requires Consistent() && cache != null
      modifies this`prepared, this`lent, this`attached, cache
      ensures Consistent() && (View(), st) == AfterGet(old(View()), limit, q)
    {
      var found := Fetch(q);
      if found.Some? {
        st := found.value;
      } else {
        st := Statement(|prepared|, q);
        prepared := prepared + [q];
      }
      lent := lent + {st};
      attached := attached + {st};
    }

    /** The destructor of a statement object. */
    method Delete(p: Statement)
      requires p !in deleted
      modifies this`deleted
      ensures deleted == old(deleted) + {p}
    {
      deleted := deleted + {p};
    }

    /** A statement that came from the cache goes back; the result is the one that this drops. */
    method Return(p: Statement) returns (dropped: Option<Statement>)
      requires Consistent() && cache != null
      modifies this`attached, cache
      ensures Consistent() && dropped == Dropped(old(Recents()), limit, p) && attached == old(attached) - {p}
      ensures View() == old(View()).(recent := AfterInsert(old(Recents()), limit, p), attached := old(attached) - {p})
    {
      attached := attached - {p};
      dropped := Put(p);
    }

    /** `statement::dispose`: the last reference to a statement is gone.  One that came from the
        cache goes back, and the one that it pushes out is disposed of in turn. */
    method Dispose(p: Statement)
      requires Consistent() && p !in deleted && (attached != {} ==> cache != null)
      requires p in attached ==> AsSet(Dropped(Recents(), limit, p)) !! deleted + attached
      modifies this`attached, this`deleted, cache
      ensures Consistent() && View() == AfterDispose(old(View()), limit, p)
      decreases |attached|
    {
      if p in attached {
        var dropped := Return(p);
        if dropped.Some? {
          Dispose(dropped.value);
        }
      } else {
        Delete(p);
      }
    }

    /** A caller drops its reference. */
    method Drop(st: Statement)
      requires Valid() && st in lent
      modifies this, cache
      ensures Valid() && ReleaseSeen(old(View()), View(), limit, st)
      ensures View() == AfterRelease(old(View()), limit, st)
    {
      ReleaseShows(View(), limit, st);
      ReleaseOwned(View(), limit, st);
      ReleaseBounded(View(), limit, st);
      DroppedIsCached(View(), limit, st);
      lent := lent - {st};
      Dispose(st);
      assert View() == AfterRelease(old(View()), limit, st);
    }

    method ClearStatements()
      requires Valid() && cache != null
      modifies this`deleted, cache
      ensures Valid() && Recents() == [] && deleted == old(deleted) + Cached(old(Recents()))
      ensures View() == AfterClear(old(View()))
    {
      ClearOwned(View());
      ListedCached(cache.lru, cache.statements, cache.next);
      deleted := deleted + set q | q in cache.statements :: cache.statements[q].stat;
      cache.Clear();
      assert View() == AfterClear(old(View()));
    }
  }

  lemma GetBounded(s: Store, max: nat, q: string)
    requires Bounded(s, max)
    ensures Bounded(AfterGet(s, max, q).0, max)
  {
  }

  lemma ReleaseBounded(s: Store, max: nat, st: Statement)
    requires Bounded(s, max)
    ensures Bounded(AfterRelease(s, max, st), max)
  {
  }

  lemma ListedCached(lru: seq<Node<string>>, m: map<string, Entry>, next: nat)
    requires Linked(lru, m, next)
    ensures Cached(Listed(lru, m, next)) == set q | q in m :: m[q].stat
  {
    var l, keys := Listed(lru, m, next), Keys(lru);
    forall q | q in m ensures (q, m[q].stat) in l {
      MatchHas(keys, Stats(m), q);
      var p :| 0 <= p < |keys| && keys[p] == q;
      PairAt(keys, Stats(m), p);
    }
    forall kv | kv in l ensures kv.0 in m && kv.1 == m[kv.0].stat {
      var p :| 0 <= p < |l| && l[p] == kv;
      PairAt(keys, Stats(m), p);
    }
  }

  lemma DroppedIsCached(s: Store, max: nat, st: Statement)
    requires Owned(s) && st in s.lent
    ensures st !in s.deleted
    ensures AsSet(Dropped(s.recent, max, st)) !! s.deleted + s.attached
  {
    assert Owners(s, st) == 1;
    var d := Dropped(s.recent, max, st);
    if d.Some? {
      FoundIsCached(s.recent, if Has(s.recent, st.query) then Find(s.recent, st.query) else |s.recent| - 1);
      assert Owners(s, d.value) == 1;
    }
  }

  lemma {:induction false} LegalPrefix(max: nat, ops: seq<Op>, i: nat)
    requires Legal(max, ops) && i < |ops|
    ensures Legal(max, ops[..i]) && Allowed(Run(max, ops[..i]), max, ops[i])
    decreases |ops|
  {
    var before := ops[..|ops| - 1];
    if i == |ops| - 1 {
    } else {
      LegalPrefix(max, before, i);
      assert before[..i] == ops[..i];
    }
  }

  /** One operation on a connection. */
  method Perform(c: Connection, op: Op)
    requires c.Valid() && Allowed(c.View(), c.limit, op)
    modifies c, c.cache
    ensures c.Valid() && c.View() == Apply(old(c.View()), c.limit, op)
  {
    match op {
      case Get(q) => var st := c.GetPrepared(q);
      case GetUncached(q) => var st := c.Prepare(q);
      case Release(st) => c.Drop(st);
      case ClearCache => c.ClearStatements();
    }
  }

  /** A connection on which a run is performed ends as the run says. */
  method Execute(max: nat, ops: seq<Op>) returns (c: Connection)
    requires Legal(max, ops)
    ensures c.Valid() && c.limit == max && c.View() == Run(max, ops) && ByRelease(c.Recents(), ops)
  {
    c := new Connection(max);
    for i := 0 to |ops|
      invariant c.Valid() && c.limit == max && fresh(c) && (c.cache != null ==> fresh(c.cache))
      invariant c.View() == Run(max, ops[..i])
    {
      assert ops[..i + 1][..i] == ops[..i];
      LegalPrefix(max, ops, i);
      Perform(c, ops[i]);
    }
    assert ops[..|ops|] == ops;
    RunKeeps(max, ops);
  }
}

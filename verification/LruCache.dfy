/** The least-recently-used cache of the media cache server: `cache_policy_lru` and `wfs::cache`. */
module LruCache {
  import opened Options
  import opened KeyedList

  // ---------------------------------------------------------- the recency list, as specified

  /** A value, and whether its eviction is reported. */
  datatype Entry<V> = Entry(value: V, callback: bool)

  /** The contents of a cache, least recently used first. */
  type Recency<K, V> = seq<(K, Entry<V>)>

  /** What a write does: the entry becomes the most recent one, and a new key in a full cache
      costs the least recent one.  Only a cache of size 0 refuses. */
  ghost function AfterWrite<K, V>(l: Recency<K, V>, max: nat, k: K, e: Entry<V>): Recency<K, V> {
    if Has(l, k) then RemoveAt(l, Find(l, k)) + [(k, e)]
    else if |l| < max then l + [(k, e)]
    else if l == [] then l
    else l[1..] + [(k, e)]
  }

  /** What a read does. */
  ghost function AfterRead<K, V>(l: Recency<K, V>, k: K): Recency<K, V> {
    var p := Find(l, k);
    if p < |l| then RemoveAt(l, p) + [l[p]] else l
  }

  ghost function AfterFree<K, V>(l: Recency<K, V>, k: K): Recency<K, V> {
    var p := Find(l, k);
    if p < |l| then RemoveAt(l, p) else l
  }

  /** What a read returns. */
  ghost function Lookup<K, V>(l: Recency<K, V>, k: K): Option<V> {
    var p := Find(l, k);
    if p < |l| then Some(l[p].1.value) else None
  }

  /** The pair that a write pushes out. */
  ghost function Victim<K, V>(l: Recency<K, V>, max: nat, k: K): Option<(K, Entry<V>)> {
    if !Has(l, k) && |l| >= max && l != [] then Some(l[0]) else None
  }

  /** The calls of the pop callback that a victim causes: one if its entry asks for it. */
  ghost function Callbacks<K, V>(victim: Option<(K, Entry<V>)>): seq<(K, V)> {
    match victim
    case None => []
    case Some(kv) => if kv.1.callback then [(kv.0, kv.1.value)] else []
  }

  // --------------------------------------------------------------------- cache_policy_lru

  /** A list with a key at the recent end, and nowhere else. */
  method Moved<K(==)>(queue: seq<Node<K>>, accessCount: map<K, nat>, next: nat, key: K)
    returns (queue': seq<Node<K>>, ghost p: nat)
    requires Indexed(queue, accessCount, next)
    ensures Indexed(queue', accessCount[key := next], next + 1)
    ensures key in accessCount ==>
      p < |queue| && queue[p].key == key && Keys(queue') == RemoveAt(Keys(queue), p) + [key]
    ensures key !in accessCount ==> Keys(queue') == Keys(queue) + [key]
  {
    p := 0;
    queue' := queue + [Node(next, key)];
    if key in accessCount {
      p := EraseKeyAfterPush(queue, accessCount, next, key);
      queue' := EraseNode(queue', accessCount[key]);
    } else {
      IndexedBack(queue, accessCount, next, key);
    }
  }

  class Policy<K(==)> {
    var queue: seq<Node<K>>
    var accessCount: map<K, nat>
    var next: nat

    ghost predicate Valid()
      reads this
    {
      Indexed(queue, accessCount, next)
    }

    constructor ()
      ensures Valid() && queue == []
    {
      queue, accessCount, next := [], map[], 0;
    }

    /** The key moves to the recent end, or is added there. */
    method Hit(key: K) returns (ghost p: nat)
      requires Valid()
      modifies this
      ensures Valid()
      ensures key in old(accessCount) ==>
        p < |old(queue)| && old(queue)[p].key == key && Keys(queue) == RemoveAt(Keys(old(queue)), p) + [key]
      ensures key !in old(accessCount) ==> Keys(queue) == Keys(old(queue)) + [key]
      ensures accessCount.Keys == old(accessCount).Keys + {key}
    {
      var moved;
      moved, p := Moved(queue, accessCount, next, key);
      queue, accessCount, next := moved, accessCount[key := next], next + 1;
    }

    /** The least recent key leaves. */
    method Pop() returns (key: Option<K>)
      requires Valid()
      modifies this
      ensures Valid()
      ensures old(queue) == [] ==> key == None && queue == old(queue) && accessCount == old(accessCount)
      ensures old(queue) != [] ==> key == Some(old(queue)[0].key) && Keys(queue) == Keys(old(queue))[1..] && accessCount == old(accessCount) - {key.value}
    {
      if queue == [] {
        return None;
      }
      key := Some(queue[0].key);
      IndexedErase(queue, accessCount, next, 0);
      assert RemoveAt(queue, 0) == queue[1..];
      queue := queue[1..];
      accessCount := accessCount - {key.value};
    }

    method Erase(key: K) returns (ghost p: nat)
      requires Valid()
      modifies this
      ensures Valid()
      ensures key in old(accessCount) ==> p < |old(queue)| && old(queue)[p].key == key && Keys(queue) == RemoveAt(Keys(old(queue)), p)
      ensures key !in old(accessCount) ==> queue == old(queue)
      ensures accessCount == old(accessCount) - {key}
    {
      p := 0;
      if key in accessCount {
        p := EraseKey(queue, accessCount, next, key);
        queue := EraseNode(queue, accessCount[key]);
        accessCount := accessCount - {key};
      }
    }

    method Clear()
      modifies this
      ensures Valid() && queue == [] && accessCount == map[]
    {
      accessCount, queue := map[], [];
    }
  }

  // --------------------------------------------------------------------------- wfs::cache

  /** The cache.  The calls of the pop callback are recorded in the order in which they happen. */
  class Cache<K(==), V> {
    var cacheMap: map<K, Entry<V>>
    const policy: Policy<K>
    const maxSize: nat
    var popped: seq<(K, V)>

    ghost predicate Valid()
      reads this, policy
    {
      && policy.Valid()
      && policy.accessCount.Keys == cacheMap.Keys
      && Match(Keys(policy.queue), cacheMap)
      && |policy.queue| <= maxSize
    }

    /** The contents, least recently used first. */
    ghost function Contents(): Recency<K, V>
      requires Valid()
      reads this, policy
    {
      Pairs(Keys(policy.queue), cacheMap)
    }

    constructor (msize: nat)
      ensures Valid() && Contents() == [] && maxSize == msize && popped == [] && fresh(policy)
    {
      policy := new Policy();
      cacheMap, maxSize, popped := map[], msize, [];
    }

    /** The branch of `write` for a key that is present. */
    method Replace(key: K, data: V, callback: bool)
      requires Valid() && key in cacheMap
      modifies this`cacheMap, policy
      ensures Valid()
      ensures Has(old(Contents()), key)
      ensures Contents() == RemoveAt(old(Contents()), Find(old(Contents()), key)) + [(key, Entry(data, callback))]
    {
      ghost var keys, m := Keys(policy.queue), cacheMap;
      MatchHas(keys, m, key);
      cacheMap := cacheMap[key := Entry(data, callback)];
      ghost var p := policy.Hit(key);
      PairAt(keys, m, p);
      MoveBack(keys, m, p, Entry(data, callback));
    }

    /** The branch for a new key when there is room. */
    method Insert(key: K, data: V, callback: bool)
      requires Valid() && key !in cacheMap && |policy.queue| < maxSize
      modifies this`cacheMap, policy
      ensures Valid()
      ensures Contents() == old(Contents()) + [(key, Entry(data, callback))]
    {
      ghost var keys, m := Keys(policy.queue), cacheMap;
      cacheMap := cacheMap[key := Entry(data, callback)];
      ghost var p := policy.Hit(key);
      AddBack(keys, m, key, Entry(data, callback));
    }

    /** The eviction that makes room. */
    method Evict() returns (victim: Option<(K, Entry<V>)>)
      requires Valid()
      modifies this`cacheMap, policy
      ensures Valid()
      ensures old(Contents()) == [] ==> victim == None && Contents() == []
      ensures old(Contents()) != [] ==> victim == Some(old(Contents())[0]) && Contents() == old(Contents())[1..]
      ensures cacheMap.Keys <= old(cacheMap).Keys
    {
      ghost var keys, m := Keys(policy.queue), cacheMap;
      var ek := policy.Pop();
      if ek.None? {
        return None;
      }
      PairAt(keys, m, 0);
      DropPair(keys, m, 0);
      assert keys[1..] == RemoveAt(keys, 0);
      victim := Some((ek.value, cacheMap[ek.value]));
      cacheMap := cacheMap - {ek.value};
    }

    /** The branch for a new key: in a full cache the least recently used one makes room. */
    method WriteNew(key: K, data: V, callback: bool) returns (ok: bool, victim: Option<(K, Entry<V>)>)
      requires Valid() && key !in cacheMap
      modifies this`cacheMap, policy
      ensures Valid() && (ok <==> maxSize > 0)
      ensures Contents() == AfterWrite(old(Contents()), maxSize, key, Entry(data, callback))
      ensures victim == Victim(old(Contents()), maxSize, key)
    {
      MatchHas(Keys(policy.queue), cacheMap, key);
      MatchSize(Keys(policy.queue), cacheMap);
      victim := None;
      if |cacheMap| >= maxSize {
        victim := Evict();
        if victim.None? {
          return false, None;
        }
      }
      Insert(key, data, callback);
      ok := true;
    }

    /** Stores an entry and reports the one that made room for it, if that asked for it. */
    method Write(key: K, data: V, callback: bool) returns (ok: bool)
      requires Valid()
      modifies this, policy
      ensures Valid()
      ensures Contents() == AfterWrite(old(Contents()), maxSize, key, Entry(data, callback))
      ensures ok <==> maxSize > 0
      ensures popped == old(popped) + Callbacks(Victim(old(Contents()), maxSize, key))
    {
      MatchHas(Keys(policy.queue), cacheMap, key);
      var victim: Option<(K, Entry<V>)> := None;
      ok := true;
      if key !in cacheMap {
        ok, victim := WriteNew(key, data, callback);
      } else {
        Replace(key, data, callback);
      }
      if victim.Some? && victim.value.1.callback {
        popped := popped + [(victim.value.0, victim.value.1.value)];
      }
    }

    /** Returns the value of a key and makes it the most recently used one. */
    method Read(key: K) returns (data: Option<V>)
      requires Valid()
      modifies policy
      ensures Valid()
      ensures Contents() == AfterRead(old(Contents()), key)
      ensures data == Lookup(old(Contents()), key)
      ensures data.Some? <==> exists e :: (key, e) in old(Contents())
      ensures data.Some? ==> exists e :: (key, e) in old(Contents()) && e.value == data.value
    {
      ghost var keys := Keys(policy.queue);
      MatchHas(keys, cacheMap, key);
      if key !in cacheMap {
        return None;
      }
      ghost var p := policy.Hit(key);
      PairAt(keys, cacheMap, p);
      MoveBack(keys, cacheMap, p, cacheMap[key]);
      assert cacheMap[key := cacheMap[key]] == cacheMap;
      data := Some(cacheMap[key].value);
    }

    method Contains(key: K) returns (found: bool)
      requires Valid()
      ensures found <==> Has(Contents(), key)
    {
      MatchHas(Keys(policy.queue), cacheMap, key);
      found := key in cacheMap;
    }

    /** Removes a key without a callback. */
    method Free(key: K)
      requires Valid()
      modifies this`cacheMap, policy
      ensures Valid()
      ensures Contents() == AfterFree(old(Contents()), key)
    {
      ghost var keys, m := Keys(policy.queue), cacheMap;
      MatchHas(keys, m, key);
      ghost var p := policy.Erase(key);
      cacheMap := cacheMap - {key};
      if key in m {
        PairAt(keys, m, p);
        DropPair(keys, m, p);
      } else {
        assert cacheMap == m;
      }
    }

    method Clear()
      requires Valid()
      modifies this`cacheMap, policy
      ensures Valid() && Contents() == []
    {
      cacheMap := map[];
      policy.Clear();
    }
  }

  // ---------------------------------------------------------------------------- whole runs

  datatype Op<K, V> = OpWrite(key: K, entry: Entry<V>) | OpRead(key: K) | OpFree(key: K) | OpClear

  ghost function Apply<K, V>(l: Recency<K, V>, max: nat, op: Op<K, V>): Recency<K, V> {
    match op
    case OpWrite(k, e) => AfterWrite(l, max, k, e)
    case OpRead(k) => AfterRead(l, k)
    case OpFree(k) => AfterFree(l, k)
    case OpClear => []
  }

  /** The contents after the first n operations of a run. */
  ghost function RunTo<K, V>(max: nat, ops: seq<Op<K, V>>, n: nat): Recency<K, V>
    requires n <= |ops|
  {
    if n == 0 then [] else Apply(RunTo(max, ops, n - 1), max, ops[n - 1])
  }

  ghost function Run<K, V>(max: nat, ops: seq<Op<K, V>>): Recency<K, V> {
    RunTo(max, ops, |ops|)
  }

  /** The calls of the pop callback during the first n operations, in order. */
  ghost function PoppedTo<K, V>(max: nat, ops: seq<Op<K, V>>, n: nat): seq<(K, V)>
    requires n <= |ops|
  {
    if n == 0 then []
    else
      PoppedTo(max, ops, n - 1)
      + if ops[n - 1].OpWrite? then Callbacks(Victim(RunTo(max, ops, n - 1), max, ops[n - 1].key)) else []
  }

  // ------------------------------------------------------- what is cached, by the operations

  /** When a key was last written by the first n operations, or -1. */
  ghost function WrittenAt<K, V>(ops: seq<Op<K, V>>, n: nat, k: K): (t: int)
    requires n <= |ops|
    ensures -1 <= t < n && (t >= 0 ==> ops[t].OpWrite? && ops[t].key == k)
  {
    if n == 0 then -1
    else if ops[n - 1].OpWrite? && ops[n - 1].key == k then n - 1
    else WrittenAt(ops, n - 1, k)
  }

  /** When a key was last freed or everything cleared, or -1. */
  ghost function RemovedAt<K, V>(ops: seq<Op<K, V>>, n: nat, k: K): (t: int)
    requires n <= |ops|
    ensures -1 <= t < n
  {
    if n == 0 then -1
    else if ops[n - 1].OpClear? || (ops[n - 1].OpFree? && ops[n - 1].key == k) then n - 1
    else RemovedAt(ops, n - 1, k)
  }

  /** A key was written and not removed since. */
  ghost predicate Present<K, V>(ops: seq<Op<K, V>>, n: nat, k: K)
    requires n <= |ops|
  {
    RemovedAt(ops, n, k) < WrittenAt(ops, n, k)
  }

  /** The keys that the first n operations name. */
  ghost function Named<K, V>(ops: seq<Op<K, V>>, n: nat): set<K>
    requires n <= |ops|
  {
    if n == 0 then {} else Named(ops, n - 1) + if ops[n - 1].OpClear? then {} else {ops[n - 1].key}
  }

  /** When a key was last used, that is written, or read while it was cached; or -1. */
  ghost function UsedAt<K, V>(max: nat, ops: seq<Op<K, V>>, n: nat, k: K): (t: int)
    requires n <= |ops|
    ensures -1 <= t < n
    decreases n, 0
  {
    if n == 0 then -1
    else
      var op := ops[n - 1];
      if (op.OpWrite? && op.key == k) || (op.OpRead? && op.key == k && Kept(max, ops, n - 1, k)) then n - 1
      else UsedAt(max, ops, n - 1, k)
  }

  /** The other keys that are there and were used since a key was last used. */
  ghost function Newer<K, V>(max: nat, ops: seq<Op<K, V>>, n: nat, k: K): set<K>
    requires n <= |ops|
    decreases n, 1
  {
    set j | j in Named(ops, n) && j != k && Present(ops, n, j) && UsedAt(max, ops, n, j) > UsedAt(max, ops, n, k)
  }

  /** A key is cached: it was written and not removed since, and at no time since its last use were
      there `max` other keys, or more, that were used since. */
  ghost predicate Kept<K, V>(max: nat, ops: seq<Op<K, V>>, n: nat, k: K)
    requires n <= |ops|
    decreases n, 2
  {
    && Present(ops, n, k)
    && forall t: nat {:trigger Newer(max, ops, t, k)} :: UsedAt(max, ops, n, k) < t <= n ==> |Newer(max, ops, t, k)| < max
  }

  /** The entry that was last written for a key. */
  ghost function LastEntry<K, V>(ops: seq<Op<K, V>>, n: nat, k: K): Entry<V>
    requires n <= |ops| && Present(ops, n, k)
  {
    ops[WrittenAt(ops, n, k)].entry
  }

  /** What the reads among the first n operations return, in order. */
  ghost function ReadsTo<K, V>(max: nat, ops: seq<Op<K, V>>, n: nat): seq<Option<V>>
    requires n <= |ops|
  {
    if n == 0 then []
    else
      var k := n - 1;
      ReadsTo(max, ops, k)
      + if !ops[k].OpRead? then []
        else [if Kept(max, ops, k, ops[k].key) then Some(LastEntry(ops, k, ops[k].key).value) else None]
  }

  // ----------------------------------------------------------- the list against the operations

  /** The list holds what was last written, ordered by last use. */
  ghost predicate Listed<K, V>(l: Recency<K, V>, max: nat, ops: seq<Op<K, V>>, n: nat)
    requires n <= |ops|
  {
    && |l| <= max
    && (forall i, j :: 0 <= i < j < |l| ==> UsedAt(max, ops, n, l[i].0) < UsedAt(max, ops, n, l[j].0))
    && (forall i :: 0 <= i < |l| ==> Present(ops, n, l[i].0) && LastEntry(ops, n, l[i].0) == l[i].1)
  }

  /** What was used since a cached key was, and not removed, is cached, a key apart. */
  ghost predicate Complete<K(!new), V>(l: Recency<K, V>, max: nat, ops: seq<Op<K, V>>, n: nat, but: set<K>)
    requires n <= |ops|
  {
    forall i, x :: 0 <= i < |l| && x !in but && Present(ops, n, x) && UsedAt(max, ops, n, x) > UsedAt(max, ops, n, l[i].0) ==>
      Has(l, x)
  }

  /** The list is what the operations say. */
  ghost predicate Explained<K(!new), V>(l: Recency<K, V>, max: nat, ops: seq<Op<K, V>>, n: nat)
    requires n <= |ops|
  {
    && Listed(l, max, ops, n)
    && Complete(l, max, ops, n, {})
    && forall k :: Has(l, k) <==> Kept(max, ops, n, k)
  }

  lemma HasAt<K, V>(l: Recency<K, V>, i: nat)
    requires i < |l|
    ensures Has(l, l[i].0)
  {
  }

  lemma ListedDistinct<K, V>(l: Recency<K, V>, max: nat, ops: seq<Op<K, V>>, n: nat)
    requires n <= |ops| && Listed(l, max, ops, n)
    ensures Distinct(l)
  {
  }

  lemma HasRemoved<K, V>(l: Recency<K, V>, p: nat, k: K)
    requires Distinct(l) && p < |l|
    ensures Has(RemoveAt(l, p), k) <==> Has(l, k) && k != l[p].0
  {
    RemovedKey(l, p);
    var r := RemoveAt(l, p);
    if Has(l, k) && k != l[p].0 {
      var i := Find(l, k);
      assert r[if i < p then i else i - 1] == l[i];
      HasAt(r, if i < p then i else i - 1);
    }
    if Has(r, k) {
      var i := Find(r, k);
      assert r[i] == l[if i < p then i else i + 1];
      HasAt(l, if i < p then i else i + 1);
    }
  }

  lemma HasAdded<K, V>(l: Recency<K, V>, k: K, e: Entry<V>, x: K)
    ensures Has(l + [(k, e)], x) <==> Has(l, x) || x == k
  {
    var r := l + [(k, e)];
    if Has(l, x) {
      assert r[Find(l, x)] == l[Find(l, x)];
      HasAt(r, Find(l, x));
    }
    if x == k {
      HasAt(r, |l|);
    }
    if Has(r, x) && x != k {
      assert r[Find(r, x)] == l[Find(r, x)];
      HasAt(l, Find(r, x));
    }
  }

  /** A list without one of its entries. */
  lemma ListedWithout<K(!new), V>(l: Recency<K, V>, max: nat, ops: seq<Op<K, V>>, n: nat, p: nat)
    requires n <= |ops| && Listed(l, max, ops, n) && Complete(l, max, ops, n, {}) && p < |l|
    ensures Listed(RemoveAt(l, p), max, ops, n)
    ensures Complete(RemoveAt(l, p), max, ops, n, {l[p].0})
    ensures p == 0 ==> Complete(RemoveAt(l, p), max, ops, n, {})
  {
    var r := RemoveAt(l, p);
    ListedDistinct(l, max, ops, n);
    assert forall i :: 0 <= i < |r| ==> r[i] == l[if i < p then i else i + 1];
    forall i, x | 0 <= i < |r| && (x != l[p].0 || p == 0) && Present(ops, n, x) && UsedAt(max, ops, n, x) > UsedAt(max, ops, n, r[i].0)
      ensures Has(r, x)
    {
      assert Has(l, x);
      HasRemoved(l, p, x);
    }
  }

  /** Operations do not change what is said of keys that they do not name. */
  lemma OthersSame<K, V>(max: nat, ops: seq<Op<K, V>>, n: nat, k: K)
    requires n < |ops| && !ops[n].OpClear? && ops[n].key != k
    ensures WrittenAt(ops, n + 1, k) == WrittenAt(ops, n, k) && RemovedAt(ops, n + 1, k) == RemovedAt(ops, n, k)
    ensures UsedAt(max, ops, n + 1, k) == UsedAt(max, ops, n, k)
  {
  }

  /** A key that is used comes to the end of a list that does not hold it. */
  lemma ListedUse<K(!new), V>(m: Recency<K, V>, max: nat, ops: seq<Op<K, V>>, n: nat, k: K, e: Entry<V>)
    requires n < |ops| && Listed(m, max, ops, n) && Complete(m, max, ops, n, {k}) && !Has(m, k) && |m| < max
    requires !ops[n].OpClear? && ops[n].key == k && UsedAt(max, ops, n + 1, k) == n
    requires Present(ops, n + 1, k) && LastEntry(ops, n + 1, k) == e
    ensures Listed(m + [(k, e)], max, ops, n + 1) && Complete(m + [(k, e)], max, ops, n + 1, {})
  {
    var r := m + [(k, e)];
    forall i | 0 <= i < |m| ensures m[i].0 != k {
      HasAt(m, i);
    }
    forall x | x != k
      ensures UsedAt(max, ops, n + 1, x) == UsedAt(max, ops, n, x) < n && (Present(ops, n + 1, x) <==> Present(ops, n, x))
      ensures Present(ops, n, x) ==> LastEntry(ops, n + 1, x) == LastEntry(ops, n, x)
    {
      OthersSame(max, ops, n, x);
    }
    forall i, x | 0 <= i < |r| && Present(ops, n + 1, x) && UsedAt(max, ops, n + 1, x) > UsedAt(max, ops, n + 1, r[i].0)
      ensures Has(r, x)
    {
      HasAdded(m, k, e, x);
    }
  }

  /** An operation that neither uses nor removes a key of the list. */
  lemma ListedIdle<K(!new), V>(l: Recency<K, V>, max: nat, ops: seq<Op<K, V>>, n: nat, k: K)
    requires n < |ops| && Listed(l, max, ops, n) && Complete(l, max, ops, n, {k}) && !Has(l, k)
    requires !ops[n].OpClear? && ops[n].key == k
    requires UsedAt(max, ops, n + 1, k) == UsedAt(max, ops, n, k)
    requires !Present(ops, n + 1, k) || (Complete(l, max, ops, n, {}) && Present(ops, n, k))
    ensures Listed(l, max, ops, n + 1) && Complete(l, max, ops, n + 1, {})
  {
    forall i | 0 <= i < |l| ensures l[i].0 != k {
      HasAt(l, i);
    }
    forall x | x != k
      ensures UsedAt(max, ops, n + 1, x) == UsedAt(max, ops, n, x) && (Present(ops, n + 1, x) <==> Present(ops, n, x))
      ensures Present(ops, n, x) ==> LastEntry(ops, n + 1, x) == LastEntry(ops, n, x)
    {
      OthersSame(max, ops, n, x);
    }
  }

  lemma StepRead<K(!new), V>(l: Recency<K, V>, max: nat, ops: seq<Op<K, V>>, n: nat, k: K)
    requires n < |ops| && Explained(l, max, ops, n) && ops[n] == OpRead(k)
    ensures var l' := AfterRead(l, k); Listed(l', max, ops, n + 1) && Complete(l', max, ops, n + 1, {})
  {
    var p := Find(l, k);
    assert Has(l, k) <==> Kept(max, ops, n, k);
    if p < |l| {
      ListedWithout(l, max, ops, n, p);
      ListedDistinct(l, max, ops, n);
      RemovedKey(l, p);
      ListedUse(RemoveAt(l, p), max, ops, n, k, l[p].1);
    } else {
      ListedIdle(l, max, ops, n, k);
    }
  }

  lemma StepFree<K(!new), V>(l: Recency<K, V>, max: nat, ops: seq<Op<K, V>>, n: nat, k: K)
    requires n < |ops| && Explained(l, max, ops, n) && ops[n] == OpFree(k)
    ensures var l' := AfterFree(l, k); Listed(l', max, ops, n + 1) && Complete(l', max, ops, n + 1, {})
  {
    var p := Find(l, k);
    if p < |l| {
      ListedWithout(l, max, ops, n, p);
      ListedDistinct(l, max, ops, n);
      RemovedKey(l, p);
    }
    ListedIdle(AfterFree(l, k), max, ops, n, k);
  }

  lemma StepWrite<K(!new), V>(l: Recency<K, V>, max: nat, ops: seq<Op<K, V>>, n: nat, k: K, e: Entry<V>)
    requires n < |ops| && Explained(l, max, ops, n) && ops[n] == OpWrite(k, e)
    ensures var l' := AfterWrite(l, max, k, e); Listed(l', max, ops, n + 1) && Complete(l', max, ops, n + 1, {})
  {
    ListedDistinct(l, max, ops, n);
    var p := Find(l, k);
    if p < |l| {
      ListedWithout(l, max, ops, n, p);
      RemovedKey(l, p);
      ListedUse(RemoveAt(l, p), max, ops, n, k, e);
    } else if |l| < max {
      ListedUse(l, max, ops, n, k, e);
    } else if l != [] {
      ListedWithout(l, max, ops, n, 0);
      assert RemoveAt(l, 0) == l[1..];
      HasRemoved(l, 0, k);
      ListedUse(l[1..], max, ops, n, k, e);
    }
  }

  /** The keys of a list from a position on. */
  ghost function KeysFrom<K, V>(l: Recency<K, V>, p: nat): set<K>
    requires p <= |l|
    decreases |l| - p
  {
    if p == |l| then {} else {l[p].0} + KeysFrom(l, p + 1)
  }

  lemma {:induction false} InKeysFrom<K, V>(l: Recency<K, V>, p: nat, k: K)
    requires p <= |l| && Distinct(l)
    ensures k in KeysFrom(l, p) <==> p <= Find(l, k) < |l|
    decreases |l| - p
  {
    if p < |l| {
      InKeysFrom(l, p + 1, k);
    }
  }

  lemma {:induction false} KeysFromSize<K, V>(l: Recency<K, V>, p: nat)
    requires p <= |l| && Distinct(l)
    ensures |KeysFrom(l, p)| == |l| - p
    decreases |l| - p
  {
    if p < |l| {
      KeysFromSize(l, p + 1);
      InKeysFrom(l, p + 1, l[p].0);
    }
  }

  lemma {:induction false} WrittenIsNamed<K, V>(ops: seq<Op<K, V>>, n: nat, k: K)
    requires n <= |ops| && WrittenAt(ops, n, k) >= 0
    ensures k in Named(ops, n)
  {
    if n > 0 && !(ops[n - 1].OpWrite? && ops[n - 1].key == k) {
      WrittenIsNamed(ops, n - 1, k);
    }
  }

  /** What was used since a cached key is what comes after it in the list. */
  lemma NewerIs<K(!new), V>(l: Recency<K, V>, max: nat, ops: seq<Op<K, V>>, n: nat, p: nat)
    requires n <= |ops| && Listed(l, max, ops, n) && Complete(l, max, ops, n, {}) && p < |l|
    ensures Newer(max, ops, n, l[p].0) == KeysFrom(l, p + 1) && |Newer(max, ops, n, l[p].0)| < max
  {
    ListedDistinct(l, max, ops, n);
    KeysFromSize(l, p + 1);
    forall x ensures x in Newer(max, ops, n, l[p].0) <==> x in KeysFrom(l, p + 1) {
      NewerIff(l, max, ops, n, p, x);
    }
  }

  lemma NewerIff<K(!new), V>(l: Recency<K, V>, max: nat, ops: seq<Op<K, V>>, n: nat, p: nat, x: K)
    requires n <= |ops| && Listed(l, max, ops, n) && Complete(l, max, ops, n, {}) && p < |l|
    ensures x in Newer(max, ops, n, l[p].0) <==> x in KeysFrom(l, p + 1)
  {
    ListedDistinct(l, max, ops, n);
    InKeysFrom(l, p + 1, x);
    if p < Find(l, x) < |l| {
      ListedIsNewer(l, max, ops, n, p, Find(l, x));
    } else if x in Newer(max, ops, n, l[p].0) {
      NewerIsListed(l, max, ops, n, p, x);
    }
  }

  lemma NewerIsListed<K(!new), V>(l: Recency<K, V>, max: nat, ops: seq<Op<K, V>>, n: nat, p: nat, x: K)
    requires n <= |ops| && Listed(l, max, ops, n) && Complete(l, max, ops, n, {}) && p < |l|
    requires x in Newer(max, ops, n, l[p].0)
    ensures p < Find(l, x) < |l|
  {
    assert Has(l, x);
  }

  lemma ListedIsNewer<K(!new), V>(l: Recency<K, V>, max: nat, ops: seq<Op<K, V>>, n: nat, p: nat, i: nat)
    requires n <= |ops| && Listed(l, max, ops, n) && p < i < |l|
    ensures l[i].0 in Newer(max, ops, n, l[p].0)
  {
    WrittenIsNamed(ops, n, l[i].0);
  }

  /** After its own use a key is cached, unless nothing ever is. */
  lemma KeptAfterUse<K, V>(max: nat, ops: seq<Op<K, V>>, n: nat, k: K)
    requires n < |ops| && UsedAt(max, ops, n + 1, k) == n && Present(ops, n + 1, k)
    ensures Kept(max, ops, n + 1, k) <==> max > 0
  {
    assert Newer(max, ops, n + 1, k) == {};
  }

  /** Without a use a key stays cached as long as there are fewer others. */
  lemma KeptWithoutUse<K, V>(max: nat, ops: seq<Op<K, V>>, n: nat, k: K)
    requires n < |ops| && UsedAt(max, ops, n + 1, k) == UsedAt(max, ops, n, k)
    requires Present(ops, n + 1, k) <==> Present(ops, n, k)
    ensures Kept(max, ops, n + 1, k) <==> Kept(max, ops, n, k) && |Newer(max, ops, n + 1, k)| < max
  {
  }

  /** The evicted key: all that are cached afterwards were used since. */
  lemma EvictedNotKept<K(!new), V>(l: Recency<K, V>, max: nat, ops: seq<Op<K, V>>, n: nat, k: K, e: Entry<V>)
    requires n < |ops| && Explained(l, max, ops, n) && ops[n] == OpWrite(k, e) && !Has(l, k) && |l| == max > 0
    ensures !Kept(max, ops, n + 1, l[0].0)
  {
    var l', x := AfterWrite(l, max, k, e), l[0].0;
    StepWrite(l, max, ops, n, k, e);
    HasAt(l, 0);
    OthersSame(max, ops, n, x);
    ListedDistinct(l', max, ops, n + 1);
    KeysFromSize(l', 0);
    forall j | j in KeysFrom(l', 0) ensures j in Newer(max, ops, n + 1, x) {
      UsedSinceEvicted(l, l', max, ops, n, k, e, j);
    }
    Larger(KeysFrom(l', 0), Newer(max, ops, n + 1, x));
  }

  lemma UsedSinceEvicted<K(!new), V>(l: Recency<K, V>, l': Recency<K, V>, max: nat, ops: seq<Op<K, V>>, n: nat, k: K,
                                     e: Entry<V>, j: K)
    requires n < |ops| && Listed(l, max, ops, n) && ops[n] == OpWrite(k, e) && !Has(l, k) && l != []
    requires l' == l[1..] + [(k, e)] && Listed(l', max, ops, n + 1) && j in KeysFrom(l', 0)
    ensures j in Newer(max, ops, n + 1, l[0].0)
  {
    var x := l[0].0;
    HasAt(l, 0);
    OthersSame(max, ops, n, x);
    ListedDistinct(l', max, ops, n + 1);
    InKeysFrom(l', 0, j);
    WrittenIsNamed(ops, n + 1, j);
    if j != k {
      assert l'[Find(l', j)] == l[Find(l', j) + 1];
      OthersSame(max, ops, n, j);
    }
  }

  lemma Larger<K>(s: set<K>, t: set<K>)
    requires s <= t
    ensures |s| <= |t|
  {
    assert t == s + (t - s);
  }

  /** What is in the list after an operation that does not name k. */
  lemma KeptOther<K(!new), V>(l: Recency<K, V>, max: nat, ops: seq<Op<K, V>>, n: nat, k: K)
    requires n < |ops| && Explained(l, max, ops, n) && !ops[n].OpClear? && ops[n].key != k
    requires var l' := Apply(l, max, ops[n]); Listed(l', max, ops, n + 1) && Complete(l', max, ops, n + 1, {})
    ensures Has(Apply(l, max, ops[n]), k) <==> Kept(max, ops, n + 1, k)
  {
    var l', op := Apply(l, max, ops[n]), ops[n];
    OthersSame(max, ops, n, k);
    KeptWithoutUse(max, ops, n, k);
    assert Has(l, k) <==> Kept(max, ops, n, k);
    HasAfter(l, max, op, k);
    if Has(l', k) {
      NewerIs(l', max, ops, n + 1, Find(l', k));
    } else if Has(l, k) {
      EvictedNotKept(l, max, ops, n, op.key, op.entry);
    }
  }

  /** An operation takes from the list only what it names, and what a write evicts. */
  lemma HasAfter<K, V>(l: Recency<K, V>, max: nat, op: Op<K, V>, k: K)
    requires Distinct(l) && |l| <= max && !op.OpClear? && op.key != k
    ensures Has(Apply(l, max, op), k) ==> Has(l, k)
    ensures Has(l, k) && !Has(Apply(l, max, op), k) ==> op.OpWrite? && !Has(l, op.key) && |l| == max > 0 && k == l[0].0
  {
    var p := Find(l, op.key);
    if p < |l| {
      HasRemoved(l, p, k);
      HasAdded(RemoveAt(l, p), op.key, l[p].1, k);
      if op.OpWrite? { HasAdded(RemoveAt(l, p), op.key, op.entry, k); }
    } else if op.OpWrite? {
      HasAdded(l, op.key, op.entry, k);
      if l != [] {
        HasRemoved(l, 0, k);
        assert RemoveAt(l, 0) == l[1..];
        HasAdded(l[1..], op.key, op.entry, k);
      }
    }
  }

  /** What is in the list after an operation that names k. */
  lemma KeptNamed<K(!new), V>(l: Recency<K, V>, max: nat, ops: seq<Op<K, V>>, n: nat, k: K)
    requires n < |ops| && Explained(l, max, ops, n) && !ops[n].OpClear? && ops[n].key == k
    ensures Has(Apply(l, max, ops[n]), k) <==> Kept(max, ops, n + 1, k)
  {
    var op, p := ops[n], Find(l, k);
    ListedDistinct(l, max, ops, n);
    assert Has(l, k) <==> Kept(max, ops, n, k);
    match op
    case OpWrite(_, e) =>
      KeptAfterUse(max, ops, n, k);
      if p < |l| { HasAdded(RemoveAt(l, p), k, e, k); }
      HasAdded(l, k, e, k);
      if l != [] { HasAdded(l[1..], k, e, k); }
    case OpRead(_) =>
      if p < |l| {
        KeptAfterUse(max, ops, n, k);
        HasAdded(RemoveAt(l, p), k, l[p].1, k);
      } else {
        KeptWithoutUse(max, ops, n, k);
      }
    case OpFree(_) =>
      if p < |l| { RemovedKey(l, p); }
  }

  lemma KeptAfter<K(!new), V>(l: Recency<K, V>, max: nat, ops: seq<Op<K, V>>, n: nat, k: K)
    requires n < |ops| && Explained(l, max, ops, n)
    requires var l' := Apply(l, max, ops[n]); Listed(l', max, ops, n + 1) && Complete(l', max, ops, n + 1, {})
    ensures Has(Apply(l, max, ops[n]), k) <==> Kept(max, ops, n + 1, k)
  {
    if ops[n].OpClear? {
      assert RemovedAt(ops, n + 1, k) == n;
    } else if ops[n].key == k {
      KeptNamed(l, max, ops, n, k);
    } else {
      KeptOther(l, max, ops, n, k);
    }
  }

  lemma ListedAfter<K(!new), V>(l: Recency<K, V>, max: nat, ops: seq<Op<K, V>>, n: nat)
    requires n < |ops| && Explained(l, max, ops, n)
    ensures var l' := Apply(l, max, ops[n]); Listed(l', max, ops, n + 1) && Complete(l', max, ops, n + 1, {})
  {
    match ops[n]
    case OpClear =>
    case OpWrite(k, e) => StepWrite(l, max, ops, n, k, e);
    case OpRead(k) => StepRead(l, max, ops, n, k);
    case OpFree(k) => StepFree(l, max, ops, n, k);
  }

  lemma ExplainedStep<K(!new), V>(l: Recency<K, V>, l': Recency<K, V>, max: nat, ops: seq<Op<K, V>>, m: nat, n: nat)
    requires n == m + 1 <= |ops| && Explained(l, max, ops, m) && l' == Apply(l, max, ops[m])
    ensures Explained(l', max, ops, n)
  {
    ListedAfter(l, max, ops, m);
    forall k ensures Has(l', k) <==> Kept(max, ops, n, k) {
      KeptAfter(l, max, ops, m, k);
    }
  }

  lemma ExplainedStart<K(!new), V>(max: nat, ops: seq<Op<K, V>>)
    ensures Explained([], max, ops, 0)
  {
  }

  /** After every run the cache holds exactly the keys that the operations say, at most `max`, each
      with the entry last written for it, in the order in which they were last used.  So the entry at
      the front, which the next eviction takes, is the least recently used one. */
  lemma {:induction false} RunIsExplained<K(!new), V>(max: nat, ops: seq<Op<K, V>>, n: nat)
    requires n <= |ops|
    ensures Explained(RunTo(max, ops, n), max, ops, n)
  {
    if n == 0 {
      ExplainedStart(max, ops);
    } else {
      RunIsExplained(max, ops, n - 1);
      ExplainedStep(RunTo(max, ops, n - 1), RunTo(max, ops, n), max, ops, n - 1, n);
    }
  }

  /** A read after a run finds its key exactly if that is cached by the operations, and then gives the
      value last written. */
  lemma ReadIs<K(!new), V>(max: nat, ops: seq<Op<K, V>>, n: nat, k: K)
    requires n <= |ops|
    ensures Lookup(RunTo(max, ops, n), k) == if Kept(max, ops, n, k) then Some(LastEntry(ops, n, k).value) else None
  {
    RunIsExplained(max, ops, n);
    assert Has(RunTo(max, ops, n), k) <==> Kept(max, ops, n, k);
  }

  /** All that is cached. */
  ghost function KeptKeys<K, V>(max: nat, ops: seq<Op<K, V>>, n: nat): set<K>
    requires n <= |ops|
  {
    set k | k in Named(ops, n) && Kept(max, ops, n, k)
  }

  lemma KeptKeysAre<K(!new), V>(max: nat, ops: seq<Op<K, V>>, n: nat)
    requires n <= |ops|
    ensures KeptKeys(max, ops, n) == KeysFrom(RunTo(max, ops, n), 0) && |KeptKeys(max, ops, n)| == |RunTo(max, ops, n)|
  {
    var l := RunTo(max, ops, n);
    RunIsExplained(max, ops, n);
    ListedDistinct(l, max, ops, n);
    KeysFromSize(l, 0);
    forall k ensures k in KeptKeys(max, ops, n) <==> k in KeysFrom(l, 0) {
      InKeysFrom(l, 0, k);
      assert Has(l, k) <==> Kept(max, ops, n, k);
      if Has(l, k) {
        WrittenIsNamed(ops, n, k);
      }
    }
  }

  /** The operation after the first n is the write of a key that is not cached while as many keys are
      cached as may be, and j is the one of these that was used least recently. */
  ghost predicate Evicts<K, V>(max: nat, ops: seq<Op<K, V>>, n: nat, j: K)
    requires n < |ops|
  {
    && ops[n].OpWrite? && !Kept(max, ops, n, ops[n].key)
    && |KeptKeys(max, ops, n)| == max && j in KeptKeys(max, ops, n)
    && forall x :: x in KeptKeys(max, ops, n) && x != j ==> UsedAt(max, ops, n, j) < UsedAt(max, ops, n, x)
  }

  /** An operation pushes an entry out exactly if it evicts its key, and it is the last entry of that. */
  lemma VictimIff<K(!new), V>(max: nat, ops: seq<Op<K, V>>, n: nat, j: K, e: Entry<V>)
    requires n < |ops| && ops[n].OpWrite?
    ensures Victim(RunTo(max, ops, n), max, ops[n].key) == Some((j, e)) <==> Evicts(max, ops, n, j) && e == LastEntry(ops, n, j)
  {
    var l, k := RunTo(max, ops, n), ops[n].key;
    RunIsExplained(max, ops, n);
    KeptKeysAre(max, ops, n);
    ListedDistinct(l, max, ops, n);
    assert Has(l, k) <==> Kept(max, ops, n, k);
    forall x ensures x in KeptKeys(max, ops, n) <==> Has(l, x) {
      InKeysFrom(l, 0, x);
    }
    if l != [] {
      HasAt(l, 0);
    }
  }

  /** An eviction is reported once, with the value last written, exactly if that was asked for. */
  lemma EvictionPops<K(!new), V>(max: nat, ops: seq<Op<K, V>>, n: nat, j: K)
    requires n < |ops| && Evicts(max, ops, n, j)
    ensures var e := LastEntry(ops, n, j);
            PoppedTo(max, ops, n + 1) == PoppedTo(max, ops, n) + if e.callback then [(j, e.value)] else []
  {
    VictimIff(max, ops, n, j, LastEntry(ops, n, j));
  }

  /** Nothing else is reported. */
  lemma OnlyEvictionPops<K(!new), V>(max: nat, ops: seq<Op<K, V>>, n: nat)
    requires n < |ops| && forall j :: j in KeptKeys(max, ops, n) ==> !Evicts(max, ops, n, j)
    ensures PoppedTo(max, ops, n + 1) == PoppedTo(max, ops, n)
  {
    if ops[n].OpWrite? {
      var v := Victim(RunTo(max, ops, n), max, ops[n].key);
      if v.Some? {
        VictimIff(max, ops, n, v.value.0, v.value.1);
      }
    }
  }

  /** One operation, with what reads found so far. */
  method Perform<K(==), V>(c: Cache<K, V>, op: Op<K, V>, found: seq<Option<V>>) returns (found': seq<Option<V>>)
    requires c.Valid()
    modifies c, c.policy
    ensures c.Valid()
    ensures c.Contents() == Apply(old(c.Contents()), c.maxSize, op)
    ensures c.popped == old(c.popped) + if op.OpWrite? then Callbacks(Victim(old(c.Contents()), c.maxSize, op.key)) else []
    ensures found' == found + if op.OpRead? then [Lookup(old(c.Contents()), op.key)] else []
  {
    found' := found;
    match op {
      case OpWrite(k, e) => var ok := c.Write(k, e.value, e.callback);
      case OpRead(k) =>
        var data := c.Read(k);
        found' := found + [data];
      case OpFree(k) => c.Free(k);
      case OpClear => c.Clear();
    }
  }

  /** A fresh cache that a run of operations is applied to ends with the contents of that run, its
      reads returned what the operations say and its callbacks reported what was evicted. */
  method Execute<K(==, !new), V>(max: nat, ops: seq<Op<K, V>>) returns (c: Cache<K, V>, found: seq<Option<V>>)
    ensures c.Valid() && c.maxSize == max && c.Contents() == Run(max, ops) && Explained(c.Contents(), max, ops, |ops|)
    ensures c.popped == PoppedTo(max, ops, |ops|) && found == ReadsTo(max, ops, |ops|)
  {
    c := new Cache<K, V>(max);
    found := [];
    for i := 0 to |ops|
      invariant c.Valid() && c.maxSize == max && fresh(c) && fresh(c.policy)
      invariant c.Contents() == RunTo(max, ops, i)
      invariant c.popped == PoppedTo(max, ops, i) && found == ReadsTo(max, ops, i)
    {
      if ops[i].OpRead? {
        ReadIs(max, ops, i, ops[i].key);
      }
      found := Perform(c, ops[i], found);
    }
    RunIsExplained(max, ops, |ops|);
  }
}

/** A map of which a linked list keeps the order: lists whose nodes are erased through iterators,
    indexes of iterators, and the list of pairs that such a structure stands for. */
module KeyedList {
  import opened Options

  // ---------------------------------------------------------------- lists of distinct pairs

  /** The position of a key in a list of pairs from i on, or the length if there is none. */
  ghost function FindFrom<K, V>(l: seq<(K, V)>, k: K, i: nat): (p: nat)
    requires i <= |l|
    ensures i <= p <= |l| && (p < |l| ==> l[p].0 == k)
    ensures forall j :: i <= j < p ==> l[j].0 != k
    decreases |l| - i
  {
    if i == |l| || l[i].0 == k then i else FindFrom(l, k, i + 1)
  }

  ghost function Find<K, V>(l: seq<(K, V)>, k: K): (p: nat)
    ensures p <= |l| && (p < |l| ==> l[p].0 == k)
    ensures forall i :: 0 <= i < p ==> l[i].0 != k
  {
    FindFrom(l, k, 0)
  }

  ghost predicate Has<K, V>(l: seq<(K, V)>, k: K) {
    Find(l, k) < |l|
  }

  ghost predicate Distinct<K, V>(l: seq<(K, V)>) {
    forall i, j :: 0 <= i < j < |l| ==> l[i].0 != l[j].0
  }

  ghost function RemoveAt<T>(l: seq<T>, p: nat): seq<T>
    requires p < |l|
  {
    l[..p] + l[p + 1..]
  }

  lemma RemoveAtTail<T>(l: seq<T>, p: nat)
    requires 0 < p < |l|
    ensures RemoveAt(l, p) == [l[0]] + RemoveAt(l[1..], p - 1)
    ensures RemoveAt(l, p)[0] == l[0] && RemoveAt(l, p)[1..] == RemoveAt(l[1..], p - 1)
  {
  }

  lemma RemoveOther<T>(l: seq<T>, p: nat, x: T)
    requires p < |l| && x in l && x != l[p]
    ensures x in RemoveAt(l, p)
  {
    assert l == l[..p] + [l[p]] + l[p + 1..];
  }

  lemma RemovedKey<K, V>(l: seq<(K, V)>, p: nat)
    requires Distinct(l) && p < |l|
    ensures Distinct(RemoveAt(l, p)) && !Has(RemoveAt(l, p), l[p].0)
  {
    var r := RemoveAt(l, p);
    assert forall i :: 0 <= i < |r| ==> r[i] == l[if i < p then i else i + 1];
  }

  // -------------------------------------------------------- linked lists and their iterators

  /** A node of a linked list.  Its identity is what an iterator points at. */
  datatype Node<K> = Node(id: nat, key: K)

  /** list.erase(iterator). */
  function EraseNode<K>(q: seq<Node<K>>, id: nat): seq<Node<K>> {
    if q == [] then [] else if q[0].id == id then q[1..] else [q[0]] + EraseNode(q[1..], id)
  }

  lemma {:induction false} EraseNodeAt<K>(q: seq<Node<K>>, p: nat)
    requires p < |q| && forall i :: 0 <= i < p ==> q[i].id != q[p].id
    ensures EraseNode(q, q[p].id) == RemoveAt(q, p)
  {
    if p > 0 {
      EraseNodeAt(q[1..], p - 1);
      RemoveAtTail(q, p);
    }
  }

  /** The keys of the nodes, in order. */
  ghost function Keys<K>(q: seq<Node<K>>): (s: seq<K>)
    ensures |s| == |q| && forall i :: 0 <= i < |q| ==> s[i] == q[i].key
  {
    seq(|q|, i requires 0 <= i < |q| => q[i].key)
  }

  /** The index holds exactly the keys of the list and points each at its one node. */
  ghost predicate Indexed<K>(q: seq<Node<K>>, index: map<K, nat>, next: nat) {
    && (forall i, j :: 0 <= i < j < |q| ==> q[i].id != q[j].id)
    && (forall i :: 0 <= i < |q| ==> q[i].id < next && q[i].key in index && index[q[i].key] == q[i].id)
    && (forall k :: k in index ==> k in Keys(q))
  }

  lemma IndexedBack<K>(q: seq<Node<K>>, index: map<K, nat>, next: nat, key: K)
    requires Indexed(q, index, next) && key !in index
    ensures Indexed(q + [Node(next, key)], index[key := next], next + 1)
    ensures Keys(q + [Node(next, key)]) == Keys(q) + [key]
  {
    var q' := q + [Node(next, key)];
    assert Keys(q') == Keys(q) + [key];
    assert forall i :: 0 <= i < |q| ==> q'[i] == q[i];
  }

  lemma IndexedFront<K>(q: seq<Node<K>>, index: map<K, nat>, next: nat, key: K)
    requires Indexed(q, index, next) && key !in index
    ensures Indexed([Node(next, key)] + q, index[key := next], next + 1)
    ensures Keys([Node(next, key)] + q) == [key] + Keys(q)
  {
    var q' := [Node(next, key)] + q;
    assert Keys(q') == [key] + Keys(q);
    assert forall i :: 1 <= i < |q'| ==> q'[i] == q[i - 1];
  }

  lemma KeysErase<K>(q: seq<Node<K>>, p: nat)
    requires p < |q|
    ensures Keys(RemoveAt(q, p)) == RemoveAt(Keys(q), p)
  {
  }

  lemma IndexedErase<K>(q: seq<Node<K>>, index: map<K, nat>, next: nat, p: nat)
    requires Indexed(q, index, next) && p < |q|
    ensures Indexed(RemoveAt(q, p), index - {q[p].key}, next)
    ensures Keys(RemoveAt(q, p)) == RemoveAt(Keys(q), p)
  {
    var q' := RemoveAt(q, p);
    KeysErase(q, p);
    assert forall i :: 0 <= i < |q'| ==> q'[i] == q[if i < p then i else i + 1];
    forall k | k in index - {q[p].key} ensures k in Keys(q') {
      RemoveOther(Keys(q), p, k);
    }
  }

  /** Where a key of the index is in the list, and that its iterator points there. */
  lemma Locate<K>(q: seq<Node<K>>, index: map<K, nat>, next: nat, key: K) returns (p: nat)
    requires Indexed(q, index, next) && key in index
    ensures p < |q| && q[p].key == key && q[p].id == index[key]
    ensures forall i :: 0 <= i < p ==> q[i].id != q[p].id
  {
    p :| 0 <= p < |q| && Keys(q)[p] == key;
  }

  /** Erasing through the iterator of a key erases the node of that key. */
  lemma EraseKey<K>(q: seq<Node<K>>, index: map<K, nat>, next: nat, key: K) returns (p: nat)
    requires Indexed(q, index, next) && key in index
    ensures p < |q| && q[p].key == key && EraseNode(q, index[key]) == RemoveAt(q, p)
    ensures Indexed(RemoveAt(q, p), index - {key}, next)
    ensures Keys(RemoveAt(q, p)) == RemoveAt(Keys(q), p)
  {
    p := Locate(q, index, next, key);
    EraseNodeAt(q, p);
    IndexedErase(q, index, next, p);
  }

  /** The same when a node has been appended before. */
  lemma EraseKeyAfterPush<K>(q: seq<Node<K>>, index: map<K, nat>, next: nat, key: K) returns (p: nat)
    requires Indexed(q, index, next) && key in index
    ensures p < |q| && q[p].key == key
    ensures var q' := EraseNode(q + [Node(next, key)], index[key]);
            Keys(q') == RemoveAt(Keys(q), p) + [key] && Indexed(q', index[key := next], next + 1)
  {
    p := Locate(q, index, next, key);
    var node := Node(next, key);
    assert forall i :: 0 <= i <= p ==> (q + [node])[i] == q[i];
    EraseNodeAt(q + [node], p);
    assert RemoveAt(q + [node], p) == RemoveAt(q, p) + [node];
    IndexedErase(q, index, next, p);
    IndexedBack(RemoveAt(q, p), index - {key}, next, key);
    assert (index - {key})[key := next] == index[key := next];
  }

  // ------------------------------------------------------------- a map in the order of a list

  /** The keys are those of the map, each once. */
  ghost predicate Match<K, V>(keys: seq<K>, m: map<K, V>) {
    if keys == [] then m == map[] else keys[0] in m && Match(keys[1..], m - {keys[0]})
  }

  /** The pairs of a map in the order of a list of its keys. */
  ghost function Pairs<K, V>(keys: seq<K>, m: map<K, V>): (l: seq<(K, V)>)
    requires Match(keys, m)
    ensures |l| == |keys|
  {
    if keys == [] then [] else [(keys[0], m[keys[0]])] + Pairs(keys[1..], m - {keys[0]})
  }

  lemma {:induction false} MatchSize<K, V>(keys: seq<K>, m: map<K, V>)
    requires Match(keys, m)
    ensures |m| == |keys|
  {
    if keys != [] {
      MatchSize(keys[1..], m - {keys[0]});
      assert m.Keys == (m - {keys[0]}).Keys + {keys[0]};
    }
  }

  lemma {:induction false} MatchHas<K, V>(keys: seq<K>, m: map<K, V>, k: K)
    requires Match(keys, m)
    ensures Has(Pairs(keys, m), k) <==> k in m
    ensures k in keys <==> k in m
  {
    if keys != [] {
      MatchHas(keys[1..], m - {keys[0]}, k);
      assert Pairs(keys, m)[1..] == Pairs(keys[1..], m - {keys[0]});
    }
  }

  lemma {:induction false} PairAt<K, V>(keys: seq<K>, m: map<K, V>, p: nat)
    requires Match(keys, m) && p < |keys|
    ensures keys[p] in m && Pairs(keys, m)[p] == (keys[p], m[keys[p]])
    ensures Find(Pairs(keys, m), keys[p]) == p
  {
    if p > 0 {
      PairAt(keys[1..], m - {keys[0]}, p - 1);
      assert Pairs(keys, m)[1..] == Pairs(keys[1..], m - {keys[0]});
    }
  }

  lemma {:induction false} AddBack<K, V>(keys: seq<K>, m: map<K, V>, k: K, v: V)
    requires Match(keys, m) && k !in m
    ensures Match(keys + [k], m[k := v]) && Pairs(keys + [k], m[k := v]) == Pairs(keys, m) + [(k, v)]
  {
    if keys == [] {
      assert m[k := v] - {k} == map[];
    } else {
      var h := keys[0];
      AddBack(keys[1..], m - {h}, k, v);
      assert (keys + [k])[1..] == keys[1..] + [k];
      assert m[k := v] - {h} == (m - {h})[k := v];
    }
  }

  lemma AddFront<K, V>(keys: seq<K>, m: map<K, V>, k: K, v: V)
    requires Match(keys, m) && k !in m
    ensures Match([k] + keys, m[k := v]) && Pairs([k] + keys, m[k := v]) == [(k, v)] + Pairs(keys, m)
  {
    assert ([k] + keys)[1..] == keys;
    assert m[k := v] - {k} == m;
  }

  lemma {:induction false} DropPair<K, V>(keys: seq<K>, m: map<K, V>, p: nat)
    requires Match(keys, m) && p < |keys|
    ensures Match(RemoveAt(keys, p), m - {keys[p]})
    ensures Pairs(RemoveAt(keys, p), m - {keys[p]}) == RemoveAt(Pairs(keys, m), p)
    decreases p
  {
    var h, t, k := keys[0], keys[1..], keys[p];
    if p == 0 {
      assert RemoveAt(keys, 0) == t;
    } else {
      DropPair(t, m - {h}, p - 1);
      PairAt(t, m - {h}, p - 1);
      assert m - {h} - {k} == m - {k} - {h};
      RemoveAtTail(keys, p);
      RemoveAtTail(Pairs(keys, m), p);
      assert Pairs(keys, m)[1..] == Pairs(t, m - {h});
    }
  }

  /** Moving a key to the back moves its pair, with the value it now has. */
  lemma MoveBack<K, V>(keys: seq<K>, m: map<K, V>, p: nat, v: V)
    requires Match(keys, m) && p < |keys|
    ensures var k := keys[p]; var keys' := RemoveAt(keys, p) + [k];
            Match(keys', m[k := v]) && Pairs(keys', m[k := v]) == RemoveAt(Pairs(keys, m), p) + [(k, v)]
  {
    var k := keys[p];
    DropPair(keys, m, p);
    AddBack(RemoveAt(keys, p), m - {k}, k, v);
    assert (m - {k})[k := v] == m[k := v];
  }
}

/** The recency list and index shared by both LRU caches: Go keeps a
    `container/list` of entries (front = most recently used) together with a
    map from key to list element.  Here the list is a sequence of entries and
    the map is derived from it by `MapOf`. */
module EntryList {

  datatype Entry<K, V> = Entry(key: K, value: V)

  /** No key occurs twice in the list. */
  ghost predicate DistinctKeys<K, V>(es: seq<Entry<K, V>>) {
    forall i, j :: 0 <= i < j < |es| ==> es[i].key != es[j].key
  }

  /** The keys on the list. */
  ghost function KeySet<K, V>(es: seq<Entry<K, V>>): set<K> {
    set i | 0 <= i < |es| :: es[i].key
  }

  /** The key-to-value index of a list (an earlier entry wins on duplicates). */
  function MapOf<K, V>(es: seq<Entry<K, V>>): map<K, V>
    decreases |es|
  {
    if |es| == 0 then map[] else MapOf(es[1..])[es[0].key := es[0].value]
  }

  /** The index has exactly the list's keys. */
  lemma {:induction false} MapOfKeys<K, V>(es: seq<Entry<K, V>>)
    ensures MapOf(es).Keys == KeySet(es)
    decreases |es|
  {
    if |es| > 0 {
      MapOfKeys(es[1..]);
      assert KeySet(es) == KeySet(es[1..]) + {es[0].key} by {
        forall k | k in KeySet(es) ensures k in KeySet(es[1..]) + {es[0].key} {
          var i :| 0 <= i < |es| && es[i].key == k;
          if i > 0 { assert es[1..][i - 1].key == k; }
        }
        forall k | k in KeySet(es[1..]) ensures k in KeySet(es) {
          var i :| 0 <= i < |es[1..]| && es[1..][i].key == k;
          assert es[i + 1].key == k;
        }
      }
    }
  }

  /** With distinct keys, the index maps every listed key to its entry's value. */
  lemma {:induction false} MapOfAt<K, V>(es: seq<Entry<K, V>>, i: nat)
    requires DistinctKeys(es) && i < |es|
    ensures es[i].key in MapOf(es) && MapOf(es)[es[i].key] == es[i].value
    decreases |es|
  {
    if i > 0 {
      MapOfAt(es[1..], i - 1);
    }
  }

  /** Position of `k` on the list (Go reaches the element through the map). */
  function IndexOf<K(==), V>(es: seq<Entry<K, V>>, k: K): (i: nat)
    requires k in MapOf(es)
    ensures i < |es| && es[i].key == k
    ensures forall j :: 0 <= j < i ==> es[j].key != k
    decreases |es|
  {
    if es[0].key == k then 0 else 1 + IndexOf(es[1..], k)
  }

  /** The list without its `i`-th element (`list.Remove`). */
  function RemoveAt<K, V>(es: seq<Entry<K, V>>, i: nat): (r: seq<Entry<K, V>>)
    requires i < |es|
    ensures |r| == |es| - 1
  {
    es[..i] + es[i + 1..]
  }

  /** Removing one element keeps the rest in order and distinct. */
  lemma RemoveAtDistinct<K, V>(es: seq<Entry<K, V>>, i: nat)
    requires DistinctKeys(es) && i < |es|
    ensures DistinctKeys(RemoveAt(es, i))
    ensures forall j :: 0 <= j < |RemoveAt(es, i)| ==>
      RemoveAt(es, i)[j] == if j < i then es[j] else es[j + 1]
  {
  }

  /** Removing the `i`-th element removes exactly its key from the index. */
  lemma {:induction false} MapOfRemoveAt<K, V>(es: seq<Entry<K, V>>, i: nat)
    requires DistinctKeys(es) && i < |es|
    ensures MapOf(RemoveAt(es, i)) == MapOf(es) - {es[i].key}
    decreases |es|
  {
    var tail := es[1..];
    if i == 0 {
      assert RemoveAt(es, 0) == tail;
      MapOfKeys(tail);
      assert es[0].key !in KeySet(tail) by {
        forall j | 0 <= j < |tail| ensures tail[j].key != es[0].key {
          assert tail[j] == es[j + 1];
        }
      }
      UpdateThenRemove(MapOf(tail), es[0].key, es[0].value);
    } else {
      assert DistinctKeys(tail);
      MapOfRemoveAt(tail, i - 1);
      var shorter := RemoveAt(tail, i - 1);
      assert RemoveAt(es, i) == [es[0]] + shorter;
      MapOfCons(es[0], shorter);
      assert tail[i - 1] == es[i];
      assert es[0].key != es[i].key;
      RemoveThenUpdate(MapOf(tail), es[i].key, es[0].key, es[0].value);
    }
  }

  lemma UpdateThenRemove<K, V>(m: map<K, V>, k: K, v: V)
    requires k !in m
    ensures m[k := v] - {k} == m
  {
  }

  lemma RemoveThenUpdate<K, V>(m: map<K, V>, a: K, b: K, v: V)
    requires a != b
    ensures (m - {a})[b := v] == m[b := v] - {a}
  {
  }

  /** A list's index after putting `e` in front of it. */
  lemma MapOfCons<K, V>(e: Entry<K, V>, es: seq<Entry<K, V>>)
    ensures MapOf([e] + es) == MapOf(es)[e.key := e.value]
  {
    assert ([e] + es)[1..] == es;
  }

  /** `MoveToFront` with the entry's value replaced: the list after an update. */
  function Refresh<K, V>(es: seq<Entry<K, V>>, i: nat, v: V): (r: seq<Entry<K, V>>)
    requires i < |es|
    ensures |r| == |es|
  {
    [Entry(es[i].key, v)] + RemoveAt(es, i)
  }

  /** A refreshed list keeps distinct keys and its index sees the new value. */
  lemma RefreshIndex<K, V>(es: seq<Entry<K, V>>, i: nat, v: V)
    requires DistinctKeys(es) && i < |es|
    ensures DistinctKeys(Refresh(es, i, v))
    ensures MapOf(Refresh(es, i, v)) == MapOf(es)[es[i].key := v]
  {
    RemoveAtDistinct(es, i);
    MapOfRemoveAt(es, i);
    MapOfCons(Entry(es[i].key, v), RemoveAt(es, i));
    MapOfKeys(RemoveAt(es, i));
    var r := Refresh(es, i, v);
    forall a, b | 0 <= a < b < |r| ensures r[a].key != r[b].key {
      if a == 0 {
        assert r[b] == RemoveAt(es, i)[b - 1];
      }
    }
    MapOfAt(es, i);
  }

  /** A key missing from the index can be put in front without a duplicate. */
  lemma ConsDistinct<K, V>(e: Entry<K, V>, es: seq<Entry<K, V>>)
    requires DistinctKeys(es) && e.key !in MapOf(es)
    ensures DistinctKeys([e] + es)
  {
    MapOfKeys(es);
    var r := [e] + es;
    forall a, b | 0 <= a < b < |r| ensures r[a].key != r[b].key {
      if a == 0 {
        assert r[b] == es[b - 1];
        assert es[b - 1].key in KeySet(es);
      }
    }
  }

  /** In a list with distinct keys, a key occurs at one position only. */
  lemma DistinctCount<K, V>(es: seq<Entry<K, V>>, i: nat, j: nat)
    requires DistinctKeys(es) && i < |es| && j < |es| && es[i].key == es[j].key
    ensures i == j
  {
  }

  /** A list of distinct keys is as long as its key set is large. */
  lemma {:induction false} DistinctCard<K, V>(es: seq<Entry<K, V>>)
    requires DistinctKeys(es)
    ensures |KeySet(es)| == |es|
    decreases |es|
  {
    if |es| > 0 {
      MapOfKeys(es);
      MapOfKeys(es[1..]);
      MapOfRemoveAt(es, 0);
      assert RemoveAt(es, 0) == es[1..];
      DistinctCard(es[1..]);
      MapOfAt(es, 0);
    }
  }

  /** Two duplicate-free lists with the same index hold the same entries,
      whatever their order. */
  lemma {:induction false} SameIndexSameEntries<K, V>(a: seq<Entry<K, V>>, b: seq<Entry<K, V>>)
    requires DistinctKeys(a) && DistinctKeys(b) && MapOf(a) == MapOf(b)
    ensures multiset(a) == multiset(b)
    decreases |a|
  {
    MapOfKeys(a);
    MapOfKeys(b);
    if |a| == 0 {
      if |b| > 0 { IndexHasHead(b); }
    } else {
      var p := FindEntry(a, b);
      var a' := RemoveAt(a, 0);
      var b' := RemoveAt(b, p);
      MapOfRemoveAt(a, 0);
      MapOfRemoveAt(b, p);
      assert MapOf(a') == MapOf(b');
      RemoveAtDistinct(a, 0);
      RemoveAtDistinct(b, p);
      SameIndexSameEntries(a', b');
      MultisetRemoveAt(a, 0);
      MultisetRemoveAt(b, p);
    }
  }

  /** Where the first entry of `a` sits in `b` when both have one index. */
  lemma FindEntry<K, V>(a: seq<Entry<K, V>>, b: seq<Entry<K, V>>) returns (p: nat)
    requires DistinctKeys(a) && DistinctKeys(b) && MapOf(a) == MapOf(b) && |a| > 0
    ensures p < |b| && b[p] == a[0]
  {
    MapOfKeys(a);
    MapOfKeys(b);
    assert a[0].key in KeySet(a);
    var q :| 0 <= q < |b| && b[q].key == a[0].key;
    MapOfAt(a, 0);
    MapOfAt(b, q);
    p := q;
  }

  lemma IndexHasHead<K, V>(es: seq<Entry<K, V>>)
    requires |es| > 0
    ensures es[0].key in MapOf(es)
  {
  }

  lemma MultisetRemoveAt<K, V>(es: seq<Entry<K, V>>, i: nat)
    requires i < |es|
    ensures multiset(es) == multiset(RemoveAt(es, i)) + multiset{es[i]}
  {
    assert es == es[..i] + [es[i]] + es[i + 1..];
  }

  lemma KeySetSnoc<K, V>(es: seq<Entry<K, V>>, e: Entry<K, V>)
    ensures KeySet(es + [e]) == KeySet(es) + {e.key}
  {
    var r := es + [e];
    forall x | x in KeySet(r) ensures x in KeySet(es) + {e.key} {
      var j :| 0 <= j < |r| && r[j].key == x;
      if j < |es| { assert es[j].key == x; }
    }
    forall x | x in KeySet(es) ensures x in KeySet(r) {
      var j :| 0 <= j < |es| && es[j].key == x;
      assert r[j].key == x;
    }
    assert r[|es|].key == e.key;
  }

  /** A duplicate-free list that lists each key of `m` with its value has
      `m` as its index. */
  lemma FiredIsIndex<K, V>(fired: seq<Entry<K, V>>, m: map<K, V>)
    requires DistinctKeys(fired) && KeySet(fired) == m.Keys
    requires forall j :: 0 <= j < |fired| ==> fired[j].key in m && fired[j].value == m[fired[j].key]
    ensures MapOf(fired) == m
  {
    MapOfKeys(fired);
    forall k | k in m ensures MapOf(fired)[k] == m[k] {
      var j :| 0 <= j < |fired| && fired[j].key == k;
      MapOfAt(fired, j);
    }
  }
}

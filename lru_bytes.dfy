/** The byte-budget LRU store of go-cache/day2-single-node/gencache/lru/lru.go.
    An entry costs `len(key) + value.Len()` bytes; `maxBytes == 0` means no
    budget.  The eviction callback `OnEvicted` is modelled by the log of its
    calls, `evictions`, which grows only when a callback was given. */
module ByteLru {
  import opened Wrappers
  import opened EntryList

  /** What one entry costs: its key's bytes plus its value's `Len()`. */
  function EntrySize<V>(e: Entry<string, V>, valueLen: V -> nat): nat {
    |e.key| + valueLen(e.value)
  }

  /** The bytes a list of entries costs in all. */
  function Size<V>(es: seq<Entry<string, V>>, valueLen: V -> nat): nat
    decreases |es|
  {
    if |es| == 0 then 0 else EntrySize(es[0], valueLen) + Size(es[1..], valueLen)
  }

  lemma {:induction false} SizeAppend<V>(a: seq<Entry<string, V>>, b: seq<Entry<string, V>>, valueLen: V -> nat)
    ensures Size(a + b, valueLen) == Size(a, valueLen) + Size(b, valueLen)
    decreases |a|
  {
    if |a| > 0 {
      assert (a + b)[0] == a[0];
      assert (a + b)[1..] == a[1..] + b;
      SizeAppend(a[1..], b, valueLen);
    } else {
      assert a + b == b;
    }
  }

  /** The cost of a list with one more entry in front. */
  lemma SizeCons<V>(e: Entry<string, V>, es: seq<Entry<string, V>>, valueLen: V -> nat)
    ensures Size([e] + es, valueLen) == EntrySize(e, valueLen) + Size(es, valueLen)
  {
    assert ([e] + es)[1..] == es;
  }

  /** Removing an entry frees exactly its cost. */
  lemma {:induction false} SizeRemoveAt<V>(es: seq<Entry<string, V>>, i: nat, valueLen: V -> nat)
    requires i < |es|
    ensures Size(RemoveAt(es, i), valueLen) == Size(es, valueLen) - EntrySize(es[i], valueLen)
    decreases i
  {
    if i == 0 {
      assert RemoveAt(es, 0) == es[1..];
    } else {
      var tail := es[1..];
      SizeRemoveAt(tail, i - 1, valueLen);
      assert RemoveAt(es, i) == [es[0]] + RemoveAt(tail, i - 1);
      SizeCons(es[0], RemoveAt(tail, i - 1), valueLen);
      assert tail[i - 1] == es[i];
    }
  }

  /** A refreshed list costs the old total with the old value's length
      replaced by the new one's. */
  lemma SizeRefresh<V>(es: seq<Entry<string, V>>, i: nat, v: V, valueLen: V -> nat)
    requires i < |es|
    ensures Size(Refresh(es, i, v), valueLen) == Size(es, valueLen) + valueLen(v) - valueLen(es[i].value)
  {
    SizeRemoveAt(es, i, valueLen);
    assert Refresh(es, i, v)[1..] == RemoveAt(es, i);
  }

  /** The list left by the eviction loop of `Add`: back entries are dropped
      while a budget is set and exceeded. */
  function Evict<V>(es: seq<Entry<string, V>>, maxBytes: int, valueLen: V -> nat): seq<Entry<string, V>>
    decreases |es|
  {
    if maxBytes != 0 && maxBytes < Size(es, valueLen) && |es| > 0
    then Evict(es[..|es| - 1], maxBytes, valueLen)
    else es
  }

  /** The entries the eviction loop drops, in the order it drops them. */
  function Evicted<V>(es: seq<Entry<string, V>>, maxBytes: int, valueLen: V -> nat): seq<Entry<string, V>>
    decreases |es|
  {
    if maxBytes != 0 && maxBytes < Size(es, valueLen) && |es| > 0
    then [es[|es| - 1]] + Evicted(es[..|es| - 1], maxBytes, valueLen)
    else []
  }

  /** Eviction keeps a front part of the list and drops the rest from the
      back, one entry at a time. */
  lemma {:induction false} EvictSplits<V>(es: seq<Entry<string, V>>, maxBytes: int, valueLen: V -> nat)
    ensures var kept, dropped := Evict(es, maxBytes, valueLen), Evicted(es, maxBytes, valueLen);
      && |kept| + |dropped| == |es|
      && kept == es[..|kept|]
      && forall j :: 0 <= j < |dropped| ==> dropped[j] == es[|es| - 1 - j]
    decreases |es|
  {
    if maxBytes != 0 && maxBytes < Size(es, valueLen) && |es| > 0 {
      var shorter := es[..|es| - 1];
      EvictSplits(shorter, maxBytes, valueLen);
      var dropped := Evicted(es, maxBytes, valueLen);
      assert dropped == [es[|es| - 1]] + Evicted(shorter, maxBytes, valueLen);
      forall j | 0 <= j < |dropped| ensures dropped[j] == es[|es| - 1 - j] {
        if j > 0 { assert dropped[j] == Evicted(shorter, maxBytes, valueLen)[j - 1]; }
      }
    }
  }

  /** With a budget set, what eviction keeps fits in it. */
  lemma {:induction false} EvictWithinBudget<V>(es: seq<Entry<string, V>>, maxBytes: int, valueLen: V -> nat)
    requires maxBytes > 0
    ensures Size(Evict(es, maxBytes, valueLen), valueLen) <= maxBytes
    decreases |es|
  {
    if maxBytes < Size(es, valueLen) && |es| > 0 {
      EvictWithinBudget(es[..|es| - 1], maxBytes, valueLen);
    }
  }

  /** Eviction stops as soon as the budget is met: keeping one more entry
      would exceed it. */
  lemma {:induction false} EvictKeepsLongestFit<V>(es: seq<Entry<string, V>>, maxBytes: int, valueLen: V -> nat)
    requires |Evict(es, maxBytes, valueLen)| < |es|
    ensures var n := |Evict(es, maxBytes, valueLen)|;
      maxBytes != 0 && maxBytes < Size(es[..n + 1], valueLen)
    decreases |es|
  {
    var shorter := es[..|es| - 1];
    EvictSplits(shorter, maxBytes, valueLen);
    if |Evict(shorter, maxBytes, valueLen)| < |shorter| {
      EvictKeepsLongestFit(shorter, maxBytes, valueLen);
      var n := |Evict(shorter, maxBytes, valueLen)|;
      assert shorter[..n + 1] == es[..n + 1];
    } else {
      assert es[..|es|] == es;
    }
  }

  /** An entry in front that alone exceeds the budget empties the store. */
  lemma {:induction false} EvictOversizedFront<V>(es: seq<Entry<string, V>>, maxBytes: int, valueLen: V -> nat)
    requires |es| > 0 && maxBytes != 0 && maxBytes < EntrySize(es[0], valueLen)
    ensures Evict(es, maxBytes, valueLen) == []
    decreases |es|
  {
    if |es| > 1 {
      EvictOversizedFront(es[..|es| - 1], maxBytes, valueLen);
    } else {
      assert es[1..] == [];
    }
  }

  /** One turn of the eviction loop. */
  lemma EvictStep<V>(es: seq<Entry<string, V>>, maxBytes: int, valueLen: V -> nat)
    requires maxBytes != 0 && maxBytes < Size(es, valueLen) && |es| > 0
    ensures Evict(es, maxBytes, valueLen) == Evict(es[..|es| - 1], maxBytes, valueLen)
    ensures Evicted(es, maxBytes, valueLen) == [es[|es| - 1]] + Evicted(es[..|es| - 1], maxBytes, valueLen)
  {
  }

  /** The eviction loop's exit. */
  lemma EvictStop<V>(es: seq<Entry<string, V>>, maxBytes: int, valueLen: V -> nat)
    requires !(maxBytes != 0 && maxBytes < Size(es, valueLen))
    ensures Evict(es, maxBytes, valueLen) == es && Evicted(es, maxBytes, valueLen) == []
  {
  }

  /** The calls the eviction callback receives for `removed`, if there is one. */
  function Notified<V>(hasOnEvicted: bool, removed: seq<Entry<string, V>>): seq<Entry<string, V>> {
    if hasOnEvicted then removed else []
  }

  class Cache<V> {
    var maxBytes: int
    var nbytes: int
    const valueLen: V -> nat
    const hasOnEvicted: bool
    /** Whether the list `ll` and the map `cache` are allocated (non-nil). */
    var live: bool
    /** The recency list, front (index 0) = most recently used. */
    var ll: seq<Entry<string, V>>
    var cache: map<string, V>
    /** The calls made to `OnEvicted` so far, oldest first. */
    var evictions: seq<Entry<string, V>>

    /** The store's invariant: the map indexes exactly the list's entries,
        no key is listed twice and `nbytes` is the list's total cost. */
    ghost predicate Valid()
      reads this
    {
      && maxBytes >= 0
      && (!live ==> ll == [])
      && DistinctKeys(ll)
      && cache == MapOf(ll)
      && nbytes == Size(ll, valueLen)
    }

    /** `New(maxBytes, onEvicted)`; a negative budget would make the eviction
        loop of `Add` spin on an empty list, so callers pass `maxBytes >= 0`. */
    constructor New(maxBytes: int, valueLen: V -> nat, hasOnEvicted: bool)
      requires maxBytes >= 0
      ensures Valid() && live
      ensures this.maxBytes == maxBytes && this.valueLen == valueLen && this.hasOnEvicted == hasOnEvicted
      ensures ll == [] && cache == map[] && nbytes == 0 && evictions == []
    {
      this.maxBytes := maxBytes;
      this.valueLen := valueLen;
      this.hasOnEvicted := hasOnEvicted;
      nbytes := 0;
      live := true;
      ll := [];
      cache := map[];
      evictions := [];
    }

    /** `removeElement`: unlinks the `i`-th entry, drops it from the map,
        frees its bytes and reports it to the callback once. */
    method RemoveElement(i: nat)
      requires Valid() && i < |ll|
      modifies this
      ensures Valid()
      ensures ll == RemoveAt(old(ll), i)
      ensures cache == old(cache) - {old(ll)[i].key}
      ensures nbytes == old(nbytes) - EntrySize(old(ll)[i], valueLen)
      ensures evictions == old(evictions) + Notified(hasOnEvicted, [old(ll)[i]])
      ensures maxBytes == old(maxBytes) && live == old(live)
    {
      var e := ll[i];
      RemoveAtDistinct(ll, i);
      MapOfRemoveAt(ll, i);
      SizeRemoveAt(ll, i, valueLen);
      ll := RemoveAt(ll, i);
      cache := cache - {e.key};
      nbytes := nbytes - (|e.key| + valueLen(e.value));
      if hasOnEvicted {
        evictions := evictions + [e];
      }
    }

    /** `RemoveOldest`: drops the back (least recently used) entry, if any. */
    method RemoveOldest()
      requires Valid()
      modifies this
      ensures Valid() && maxBytes == old(maxBytes) && live == old(live)
      ensures old(ll) == [] ==> ll == old(ll) && nbytes == old(nbytes) && evictions == old(evictions)
      ensures old(ll) != [] ==>
        && ll == old(ll)[..|old(ll)| - 1]
        && evictions == old(evictions) + Notified(hasOnEvicted, [old(ll)[|old(ll)| - 1]])
    {
      if !live {
        return;
      }
      if |ll| > 0 {
        RemoveElement(|ll| - 1);
        assert ll == old(ll)[..|old(ll)| - 1];
      }
    }

    /** `Remove(key)`: no effect for an absent key; otherwise drops it. */
    method Remove(key: string)
      requires Valid()
      modifies this
      ensures Valid() && maxBytes == old(maxBytes) && live == old(live)
      ensures key !in old(cache) ==> ll == old(ll) && cache == old(cache) && evictions == old(evictions)
      ensures key in old(cache) ==>
        && ll == RemoveAt(old(ll), IndexOf(old(ll), key))
        && cache == old(cache) - {key}
        && nbytes == old(nbytes) - (|key| + valueLen(old(cache)[key]))
        && evictions == old(evictions) + Notified(hasOnEvicted, [Entry(key, old(cache)[key])])
    {
      if !live {
        return;
      }
      if key in cache {
        var i := IndexOf(ll, key);
        MapOfAt(ll, i);
        RemoveElement(i);
      }
    }

    /** `Get(key)`: on a hit returns the value and moves its entry to the
        front; on a miss (or a cleared store) changes nothing. */
    method Get(key: string) returns (r: Option<V>)
      requires Valid()
      modifies this
      ensures Valid()
      ensures cache == old(cache) && nbytes == old(nbytes) && evictions == old(evictions)
      ensures maxBytes == old(maxBytes) && live == old(live)
      ensures key in old(cache) ==>
        r == Some(old(cache)[key]) && ll == Refresh(old(ll), IndexOf(old(ll), key), old(cache)[key])
      ensures key !in old(cache) ==> r == None && ll == old(ll)
    {
      if !live {
        return None;
      }
      if key in cache {
        var i := IndexOf(ll, key);
        var v := cache[key];
        MapOfAt(ll, i);
        RefreshIndex(ll, i, v);
        SizeRefresh(ll, i, v, valueLen);
        ll := Refresh(ll, i, v);
        return Some(v);
      }
      return None;
    }

    /** `Add(key, value)`.  An existing key gets the new value, moves to the
        front and its byte delta is applied, with no eviction.  A new key is
        pushed in front, its cost added, and then back entries are evicted
        while the budget is set and exceeded. */
    method Add(key: string, value: V)
      requires Valid()
      modifies this
      ensures Valid() && live && maxBytes == old(maxBytes)
      ensures key in old(cache) ==>
        && ll == Refresh(old(ll), IndexOf(old(ll), key), value)
        && nbytes == old(nbytes) + valueLen(value) - valueLen(old(cache)[key])
        && evictions == old(evictions)
      ensures key !in old(cache) ==>
        var pushed := [Entry(key, value)] + old(ll);
        && ll == Evict(pushed, maxBytes, valueLen)
        && evictions == old(evictions) + Notified(hasOnEvicted, Evicted(pushed, maxBytes, valueLen))
      ensures key !in old(cache) && maxBytes != 0 ==> nbytes <= maxBytes
    {
      if !live {
        live := true;
        ll := [];
        cache := map[];
      }
      if key in cache {
        var i := IndexOf(ll, key);
        var old_value := cache[key];
        MapOfAt(ll, i);
        RefreshIndex(ll, i, value);
        SizeRefresh(ll, i, value, valueLen);
        ll := Refresh(ll, i, value);
        nbytes := nbytes + valueLen(value) - valueLen(old_value);
        cache := cache[key := value];
        return;
      }
      var e := Entry(key, value);
      ConsDistinct(e, ll);
      MapOfCons(e, ll);
      assert ([e] + ll)[1..] == ll;
      ll := [e] + ll;
      cache := cache[key := value];
      nbytes := nbytes + |key| + valueLen(value);
      ghost var pushed := ll;
      EvictOverBudget();
      if maxBytes != 0 {
        EvictWithinBudget(pushed, maxBytes, valueLen);
      }
    }

    /** The eviction loop of `Add`: while a budget is set and exceeded,
        `RemoveOldest`. */
    method EvictOverBudget()
      requires Valid()
      modifies this
      ensures Valid() && live == old(live) && maxBytes == old(maxBytes)
      ensures ll == Evict(old(ll), maxBytes, valueLen)
      ensures evictions == old(evictions) + Notified(hasOnEvicted, Evicted(old(ll), maxBytes, valueLen))
    {
      ghost var start, log0, live0, max0 := ll, evictions, live, maxBytes;
      ghost var removed: seq<Entry<string, V>> := [];
      while maxBytes != 0 && maxBytes < nbytes
        invariant Valid() && live == live0 && maxBytes == max0
        invariant Evict(ll, maxBytes, valueLen) == Evict(start, maxBytes, valueLen)
        invariant Evicted(start, maxBytes, valueLen) == removed + Evicted(ll, maxBytes, valueLen)
        invariant evictions == log0 + Notified(hasOnEvicted, removed)
        decreases |ll|
      {
        ghost var before := ll;
        ghost var logBefore := evictions;
        assert before != [];
        EvictStep(before, maxBytes, valueLen);
        RemoveOldest();
        assert ll == before[..|before| - 1];
        assert evictions == logBefore + Notified(hasOnEvicted, [before[|before| - 1]]);
        ghost var last := before[|before| - 1];
        assert Notified(hasOnEvicted, removed + [last]) == Notified(hasOnEvicted, removed) + Notified(hasOnEvicted, [last]);
        assert removed + ([last] + Evicted(ll, maxBytes, valueLen)) == (removed + [last]) + Evicted(ll, maxBytes, valueLen);
        removed := removed + [last];
      }
      EvictStop(ll, maxBytes, valueLen);
      assert ll == Evict(start, maxBytes, valueLen);
      assert removed == Evicted(start, maxBytes, valueLen);
    }

    /** `Len()`: the number of entries (0 after `Clear`). */
    method Len() returns (n: nat)
      requires Valid()
      ensures n == |ll| && n == |cache|
    {
      MapOfKeys(ll);
      DistinctCard(ll);
      if !live {
        return 0;
      }
      return |ll|;
    }

    /** The callback loop of `Clear`: one call per stored entry, in the
        map's unspecified iteration order; the store itself is unchanged. */
    method NotifyAll()
      requires Valid() && hasOnEvicted
      modifies this
      ensures Valid() && ll == old(ll) && cache == old(cache) && live == old(live) && hasOnEvicted
      ensures maxBytes == old(maxBytes) && nbytes == old(nbytes)
      ensures |evictions| == |old(evictions)| + |ll|
      ensures evictions[..|old(evictions)|] == old(evictions)
      ensures multiset(evictions[|old(evictions)|..]) == multiset(ll)
    {
      ghost var ll0, cache0, evictions0, live0 := ll, cache, evictions, live;
      ghost var maxBytes0, nbytes0 := maxBytes, nbytes;
      var rest := cache.Keys;
      ghost var fired: seq<Entry<string, V>> := [];
      while rest != {}
        invariant ll == ll0 && cache == cache0 && live == live0 && maxBytes == maxBytes0 && nbytes == nbytes0 && hasOnEvicted && Valid()
        invariant rest <= cache.Keys
        invariant evictions == evictions0 + fired
        invariant DistinctKeys(fired)
        invariant forall j :: 0 <= j < |fired| ==>
          fired[j].key in cache && fired[j].key !in rest && fired[j].value == cache[fired[j].key]
        invariant KeySet(fired) + rest == cache.Keys
        decreases rest
      {
        var k :| k in rest;
        var e := Entry(k, cache[k]);
        evictions := evictions + [e];
        KeySetSnoc(fired, e);
        fired := fired + [e];
        rest := rest - {k};
      }
      FiredIsIndex(fired, cache);
      SameIndexSameEntries(fired, ll);
      assert evictions[|evictions0|..] == fired;
      assert |fired| == |multiset(fired)| == |multiset(ll)| == |ll|;
    }

    /** `Clear()`: reports every entry to the callback (in the map's
        unspecified iteration order), drops list and map, and resets both
        the byte count and the budget to 0. */
    method Clear()
      requires Valid()
      modifies this
      ensures Valid() && !live && ll == [] && cache == map[]
      ensures nbytes == 0 && maxBytes == 0
      ensures !hasOnEvicted ==> evictions == old(evictions)
      ensures hasOnEvicted ==>
        && |evictions| == |old(evictions)| + |old(ll)|
        && evictions[..|old(evictions)|] == old(evictions)
        && multiset(evictions[|old(evictions)|..]) == multiset(old(ll))
    {
      if hasOnEvicted {
        NotifyAll();
      }
      ll := [];
      cache := map[];
      live := false;
      maxBytes := 0;
      nbytes := 0;
    }
  }

}

/** The entry-count LRU of go-cache/day1-lru/gencache/lru/lru.go.  At most
    `maxEntries` entries are kept (0 = no limit); `Get` does not refresh an
    entry, so the back of the list is the least recently added or updated
    entry.  `OnEvicted` is modelled by the log of its calls. */
module EntryLru {
  import opened Wrappers
  import opened EntryList

  /** The calls the eviction callback receives for `removed`, if there is one. */
  function Notified<K, V>(hasOnEvicted: bool, removed: seq<Entry<K, V>>): seq<Entry<K, V>> {
    if hasOnEvicted then removed else []
  }

  /** The list after adding a new key: pushed in front, and with a limit that
      is now exceeded, its back entry dropped. */
  function AddNew<K, V>(es: seq<Entry<K, V>>, e: Entry<K, V>, maxEntries: int): seq<Entry<K, V>> {
    var pushed := [e] + es;
    if maxEntries != 0 && |pushed| > maxEntries then pushed[..|pushed| - 1] else pushed
  }

  /** Adding a new key never breaks a positive entry limit that held before. */
  lemma AddNewWithinLimit<K, V>(es: seq<Entry<K, V>>, e: Entry<K, V>, maxEntries: int)
    requires 0 < maxEntries && |es| <= maxEntries
    ensures |AddNew(es, e, maxEntries)| <= maxEntries
    ensures |AddNew(es, e, maxEntries)| == if |es| == maxEntries then |es| else |es| + 1
  {
  }

  /** The new key always survives its own insertion unless the limit is
      negative, and the entries kept are the previous front part in order. */
  lemma AddNewKeepsNewest<K, V>(es: seq<Entry<K, V>>, e: Entry<K, V>, maxEntries: int)
    requires maxEntries >= 0
    ensures var r := AddNew(es, e, maxEntries);
      |r| >= 1 && r[0] == e && r[1..] == es[..|r| - 1]
  {
  }

  class Cache<K(==), V> {
    var maxEntries: int
    var hasOnEvicted: bool
    /** Whether the list `ll` and the map `cache` are allocated (non-nil). */
    var live: bool
    /** The recency list, front (index 0) = most recently added or updated. */
    var ll: seq<Entry<K, V>>
    var cache: map<K, V>
    /** The calls made to `OnEvicted` so far, oldest first. */
    var evictions: seq<Entry<K, V>>

    /** The map indexes exactly the list's entries and no key is listed twice. */
    ghost predicate Valid()
      reads this
    {
      && (!live ==> ll == [])
      && DistinctKeys(ll)
      && cache == MapOf(ll)
    }

    /** `New(maxEntries)`.  Go leaves the exported `OnEvicted` nil and lets the
        caller assign it; here whether one is installed is fixed up front. */
    constructor New(maxEntries: int, hasOnEvicted: bool)
      ensures Valid() && live
      ensures this.maxEntries == maxEntries && this.hasOnEvicted == hasOnEvicted
      ensures ll == [] && cache == map[] && evictions == []
    {
      this.maxEntries := maxEntries;
      this.hasOnEvicted := hasOnEvicted;
      live := true;
      ll := [];
      cache := map[];
      evictions := [];
    }

    /** `removeElement`: unlinks the `i`-th entry, drops it from the map and
        reports it to the callback once. */
    method RemoveElement(i: nat)
      requires Valid() && i < |ll|
      modifies this
      ensures Valid()
      ensures ll == RemoveAt(old(ll), i) && cache == old(cache) - {old(ll)[i].key}
      ensures evictions == old(evictions) + Notified(hasOnEvicted, [old(ll)[i]])
      ensures maxEntries == old(maxEntries) && hasOnEvicted == old(hasOnEvicted) && live == old(live)
    {
      var e := ll[i];
      RemoveAtDistinct(ll, i);
      MapOfRemoveAt(ll, i);
      ll := RemoveAt(ll, i);
      cache := cache - {e.key};
      if hasOnEvicted {
        evictions := evictions + [e];
      }
    }

    /** `RemoveOldest`: drops the back entry, the least recently added or
        updated one; nothing happens on an empty or cleared cache. */
    method RemoveOldest()
      requires Valid()
      modifies this
      ensures Valid() && maxEntries == old(maxEntries) && hasOnEvicted == old(hasOnEvicted) && live == old(live)
      ensures old(ll) == [] ==> ll == old(ll) && evictions == old(evictions)
      ensures old(ll) != [] ==>
        && ll == old(ll)[..|old(ll)| - 1]
        && evictions == old(evictions) + Notified(hasOnEvicted, [old(ll)[|old(ll)| - 1]])
    {
      if !live {
        return;
      }
      if |ll| > 0 {
        RemoveElement(|ll| - 1);
        assert ll == old(ll)[..|old(ll)| - 1];
      }
    }

    /** `Remove(key)`: deletes only `key`; an absent key is a no-op. */
    method Remove(key: K)
      requires Valid()
      modifies this
      ensures Valid() && maxEntries == old(maxEntries) && hasOnEvicted == old(hasOnEvicted) && live == old(live)
      ensures key !in old(cache) ==> ll == old(ll) && evictions == old(evictions)
      ensures key in old(cache) ==>
        && ll == RemoveAt(old(ll), IndexOf(old(ll), key))
        && cache == old(cache) - {key}
        && evictions == old(evictions) + Notified(hasOnEvicted, [Entry(key, old(cache)[key])])
    {
      if !live {
        return;
      }
      if key in cache {
        var i := IndexOf(ll, key);
        MapOfAt(ll, i);
        RemoveElement(i);
      }
    }

    /** `Get(key)`: the stored value on a hit; the cache is not touched, so
        recency is not refreshed. */
    method Get(key: K) returns (r: Option<V>)
      requires Valid()
      ensures r.Some? <==> key in cache
      ensures r.Some? ==> r.value == cache[key]
      ensures r.Some? ==> exists i :: 0 <= i < |ll| && ll[i] == Entry(key, r.value)
    {
      if !live {
        return None;
      }
      if key in cache {
        MapOfAt(ll, IndexOf(ll, key));
        return Some(cache[key]);
      }
      return None;
    }

    /** `Add(key, value)`: an existing key is overwritten and moved to the
        front without eviction; a new key is pushed in front and, when a
        limit is set and now exceeded, one back entry is removed. */
    method Add(key: K, value: V)
      requires Valid()
      modifies this
      ensures Valid() && live && maxEntries == old(maxEntries) && hasOnEvicted == old(hasOnEvicted)
      ensures key in old(cache) ==>
        ll == Refresh(old(ll), IndexOf(old(ll), key), value) && evictions == old(evictions)
      ensures key !in old(cache) ==>
        && ll == AddNew(old(ll), Entry(key, value), maxEntries)
        && evictions == old(evictions) + Notified(hasOnEvicted,
             if maxEntries != 0 && |old(ll)| + 1 > maxEntries
             then [([Entry(key, value)] + old(ll))[|old(ll)|]] else [])
      ensures 0 < maxEntries && |old(ll)| <= maxEntries ==> |ll| <= maxEntries
    {
      if !live {
        live := true;
        ll := [];
        cache := map[];
      }
      if key in cache {
        var i := IndexOf(ll, key);
        MapOfAt(ll, i);
        RefreshIndex(ll, i, value);
        ll := Refresh(ll, i, value);
        cache := cache[key := value];
        return;
      }
      var e := Entry(key, value);
      ConsDistinct(e, ll);
      MapOfCons(e, ll);
      ll := [e] + ll;
      cache := cache[key := value];
      if maxEntries != 0 && |ll| > maxEntries {
        RemoveOldest();
      }
    }

    /** `Len()`: the number of entries (0 after `Clear`). */
    method Len() returns (n: nat)
      requires Valid()
      ensures n == |ll| && n == |cache|
    {
      MapOfKeys(ll);
      DistinctCard(ll);
      if !live {
        return 0;
      }
      return |ll|;
    }

    /** The callback loop of `Clear`: one call per stored entry, in the
        map's unspecified iteration order; the store itself is unchanged. */
    method NotifyAll()
      requires Valid() && hasOnEvicted
      modifies this
      ensures Valid() && ll == old(ll) && cache == old(cache) && live == old(live) && hasOnEvicted
      ensures maxEntries == old(maxEntries)
      ensures |evictions| == |old(evictions)| + |ll|
      ensures evictions[..|old(evictions)|] == old(evictions)
      ensures multiset(evictions[|old(evictions)|..]) == multiset(ll)
    {
      ghost var ll0, cache0, evictions0, live0 := ll, cache, evictions, live;
      ghost var maxEntries0 := maxEntries;
      var rest := cache.Keys;
      ghost var fired: seq<Entry<K, V>> := [];
      while rest != {}
        invariant ll == ll0 && cache == cache0 && live == live0 && maxEntries == maxEntries0 && hasOnEvicted && Valid()
        invariant rest <= cache.Keys
        invariant evictions == evictions0 + fired
        invariant DistinctKeys(fired)
        invariant forall j :: 0 <= j < |fired| ==>
          fired[j].key in cache && fired[j].key !in rest && fired[j].value == cache[fired[j].key]
        invariant KeySet(fired) + rest == cache.Keys
        decreases rest
      {
        var k :| k in rest;
        var e := Entry(k, cache[k]);
        evictions := evictions + [e];
        KeySetSnoc(fired, e);
        fired := fired + [e];
        rest := rest - {k};
      }
      FiredIsIndex(fired, cache);
      SameIndexSameEntries(fired, ll);
      assert evictions[|evictions0|..] == fired;
      assert |fired| == |multiset(fired)| == |multiset(ll)| == |ll|;
    }

    /** `Clear()`: reports every entry to the callback (in the map's
        unspecified order) and drops list and map; `maxEntries` stays. */
    method Clear()
      requires Valid()
      modifies this
      ensures Valid() && !live && ll == [] && cache == map[]
      ensures maxEntries == old(maxEntries) && hasOnEvicted == old(hasOnEvicted)
      ensures !hasOnEvicted ==> evictions == old(evictions)
      ensures hasOnEvicted ==>
        && |evictions| == |old(evictions)| + |old(ll)|
        && evictions[..|old(evictions)|] == old(evictions)
        && multiset(evictions[|old(evictions)|..]) == multiset(old(ll))
    {
      if hasOnEvicted {
        NotifyAll();
      }
      ll := [];
      cache := map[];
      live := false;
    }
  }
}

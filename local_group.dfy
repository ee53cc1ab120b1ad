/** The single-node cache namespace of
    go-cache/day3-http-server/gencache/gencache.go: a named `Group` whose
    misses are always loaded by its local getter, and the registry of
    groups.  Getter calls are recorded in a ghost log. */
module LocalGroupCache {
  import opened Wrappers
  import opened ByteViews
  import ByteLru
  import EntryList

  /** `Getter` (and its `GetterFunc` adapter): load the bytes of a key. */
  type Getter = string -> Result<seq<byte>, string>

  class Group {
    const name: string
    const getter: Getter
    const mainCache: ByteLru.Cache<ByteView>
    /** Keys passed to the getter, in call order. */
    ghost var getterCalls: seq<string>

    /** The store is a valid byte-budget LRU charging `Len()` per value,
        without an eviction callback. */
    ghost predicate Valid()
      reads this, mainCache
    {
      mainCache.Valid() && mainCache.valueLen == ViewLen && !mainCache.hasOnEvicted
    }

    /** The `&Group{...}` literal of `NewGroup`. */
    constructor (name: string, cacheBytes: int, getter: Getter)
      requires cacheBytes >= 0
      ensures Valid() && fresh(mainCache)
      ensures this.name == name && this.getter == getter
      ensures mainCache.maxBytes == cacheBytes && mainCache.ll == [] && mainCache.cache == map[]
      ensures getterCalls == []
    {
      this.name := name;
      this.getter := getter;
      mainCache := new ByteLru.Cache.New(cacheBytes, ViewLen, false);
      getterCalls := [];
    }

    /** `populateCache`: adds the value to the store. */
    method PopulateCache(key: string, value: ByteView)
      requires Valid()
      modifies mainCache
      ensures Valid()
      ensures key in old(mainCache.cache) ==>
        mainCache.ll == EntryList.Refresh(old(mainCache.ll), EntryList.IndexOf(old(mainCache.ll), key), value)
      ensures key !in old(mainCache.cache) ==>
        mainCache.ll == ByteLru.Evict([EntryList.Entry(key, value)] + old(mainCache.ll), mainCache.maxBytes, ViewLen)
      ensures mainCache.maxBytes == old(mainCache.maxBytes)
    {
      mainCache.Add(key, value);
    }

    /** `getLocally` (which `load` only forwards to): calls the getter; on
        success caches a clone of the bytes and returns it, on failure
        returns the error unchanged and caches nothing. */
    method GetLocally(key: string) returns (r: Result<ByteView, string>)
      requires Valid()
      modifies this, mainCache
      ensures Valid()
      ensures getterCalls == old(getterCalls) + [key]
      ensures mainCache.maxBytes == old(mainCache.maxBytes)
      ensures getter(key).Failure? ==>
        r == Failure(getter(key).error) && mainCache.ll == old(mainCache.ll) && mainCache.cache == old(mainCache.cache)
      ensures getter(key).Success? ==>
        && r == Success(OfBytes(getter(key).value))
        && (key !in old(mainCache.cache) ==>
              mainCache.ll == ByteLru.Evict([EntryList.Entry(key, r.value)] + old(mainCache.ll), mainCache.maxBytes, ViewLen))
    {
      getterCalls := getterCalls + [key];
      var answer := getter(key);
      if answer.Failure? {
        return Failure(answer.error);
      }
      var value := OfBytes(CloneBytes(answer.value));
      PopulateCache(key, value);
      return Success(value);
    }

    /** `Get`: rejects the empty key; a hit is served from the store
        without calling the getter; a miss is loaded locally. */
    method Get(key: string) returns (r: Result<ByteView, string>)
      requires Valid()
      modifies this, mainCache
      ensures Valid()
      ensures mainCache.maxBytes == old(mainCache.maxBytes)
      ensures key == "" ==>
        && r == Failure("key is required")
        && mainCache.ll == old(mainCache.ll) && mainCache.cache == old(mainCache.cache)
        && getterCalls == old(getterCalls)
      ensures key != "" && key in old(mainCache.cache) ==>
        && r == Success(old(mainCache.cache)[key])
        && mainCache.cache == old(mainCache.cache)
        && mainCache.ll == EntryList.Refresh(old(mainCache.ll), EntryList.IndexOf(old(mainCache.ll), key), r.value)
        && getterCalls == old(getterCalls)
      ensures key != "" && key !in old(mainCache.cache) ==>
        && getterCalls == old(getterCalls) + [key]
        && (getter(key).Failure? ==>
              r == Failure(getter(key).error) && mainCache.ll == old(mainCache.ll) && mainCache.cache == old(mainCache.cache))
        && (getter(key).Success? ==>
              && r == Success(OfBytes(getter(key).value))
              && mainCache.ll == ByteLru.Evict([EntryList.Entry(key, r.value)] + old(mainCache.ll), mainCache.maxBytes, ViewLen))
    {
      if key == "" {
        return Failure("key is required");
      }
      var hit := mainCache.Get(key);
      if hit.Some? {
        return Success(hit.value);
      }
      r := GetLocally(key);
    }
  }

  /** The package-level `groups` map. */
  class Registry {
    var groups: map<string, Group>
    /** Every group object and store ever registered. */
    ghost var repr: set<object>

    /** Every registered group is valid, and no two share a store. */
    ghost predicate Valid()
      reads this, repr
    {
      && (forall n :: n in groups ==> groups[n] in repr && groups[n].mainCache in repr)
      && (forall n :: n in groups ==> groups[n].Valid())
      && (forall n, m :: n in groups && m in groups && groups[n] != groups[m] ==>
            groups[n].mainCache != groups[m].mainCache)
    }

    constructor ()
      ensures Valid() && groups == map[]
    {
      groups := map[];
      repr := {};
    }

    /** `NewGroup`: a nil getter panics; otherwise a fresh group is stored
        under `name`, replacing any group of that name. */
    method NewGroup(name: string, cacheBytes: int, getter: Option<Getter>) returns (r: Outcome<Group>)
      requires Valid() && cacheBytes >= 0
      modifies this
      ensures Valid()
      ensures getter.None? ==> r == Panicked("nil Getter") && groups == old(groups)
      ensures getter.Some? ==>
        && r.Returned? && fresh(r.value) && fresh(r.value.mainCache) && r.value.Valid()
        && r.value.name == name && r.value.getter == getter.value && r.value.getterCalls == []
        && r.value.mainCache.maxBytes == cacheBytes && r.value.mainCache.ll == [] && r.value.mainCache.cache == map[]
        && groups == old(groups)[name := r.value]
    {
      if getter.None? {
        return Panicked("nil Getter");
      }
      var g := new Group(name, cacheBytes, getter.value);
      groups := groups[name := g];
      repr := repr + {g, g.mainCache};
      return Returned(g);
    }

    /** `GetGroup`: the group registered under `name`, or nil. */
    method GetGroup(name: string) returns (r: Option<Group>)
      ensures name in groups <==> r.Some?
      ensures r.Some? ==> r.value == groups[name]
    {
      if name in groups {
        return Some(groups[name]);
      }
      return None;
    }
  }

  /** The slow database of gencache_test.go: three scores, and the error
      `"<key> not exist"` for any other key.  The values are the ASCII
      bytes of "630", "589" and "567". */
  function SlowDb(key: string): Result<seq<byte>, string> {
    if key == "Tom" then Success([54, 51, 48])
    else if key == "Jack" then Success([53, 56, 57])
    else if key == "Sam" then Success([53, 54, 55])
    else Failure(key + " not exist")
  }

  /** A new entry that fits in the budget with everything already stored
      is kept, and nothing is evicted. */
  lemma LoadFits(ll: seq<EntryList.Entry<string, ByteView>>, key: string, value: ByteView, maxBytes: int)
    requires ByteLru.Size(ll, ViewLen) + |key| + value.Len() <= maxBytes
    ensures var pushed := [EntryList.Entry(key, value)] + ll;
      && ByteLru.Evict(pushed, maxBytes, ViewLen) == pushed
      && ByteLru.Size(pushed, ViewLen) == ByteLru.Size(ll, ViewLen) + |key| + value.Len()
  {
    var pushed := [EntryList.Entry(key, value)] + ll;
    assert pushed[1..] == ll;
    ByteLru.EvictStop(pushed, maxBytes, ViewLen);
  }

  /** One turn of `TestGet`'s loop over the database: the first `Get` of a
      stored score misses and loads it, the second is served from the
      store, and the database is asked once. */
  method GetTwice(g: Group, key: string) returns (first: Result<ByteView, string>, second: Result<ByteView, string>)
    requires g.Valid() && g.getter == SlowDb && SlowDb(key).Success? && key != ""
    requires key !in g.mainCache.cache
    requires g.mainCache.nbytes + |key| + |SlowDb(key).value| <= g.mainCache.maxBytes
    modifies g, g.mainCache
    ensures g.Valid() && g.mainCache.maxBytes == old(g.mainCache.maxBytes)
    ensures first == Success(OfBytes(SlowDb(key).value)) && second == first
    ensures g.mainCache.cache == old(g.mainCache.cache)[key := first.value]
    ensures g.mainCache.nbytes == old(g.mainCache.nbytes) + |key| + |SlowDb(key).value|
    ensures g.getterCalls == old(g.getterCalls) + [key]
  {
    ghost var ll0 := g.mainCache.ll;
    first := g.Get(key);
    LoadFits(ll0, key, first.value, g.mainCache.maxBytes);
    EntryList.MapOfCons(EntryList.Entry(key, first.value), ll0);
    ghost var ll1 := g.mainCache.ll;
    second := g.Get(key);
    EntryList.MapOfAt(ll1, EntryList.IndexOf(ll1, key));
    ByteLru.SizeRefresh(ll1, EntryList.IndexOf(ll1, key), first.value, ViewLen);
  }

  /** A key the database does not hold: its `Get` asks the database and
      returns the database's error. */
  method GetMissing(g: Group, key: string) returns (r: Result<ByteView, string>)
    requires g.Valid() && g.getter == SlowDb && key != ""
    requires key !in g.mainCache.cache && SlowDb(key).Failure?
    modifies g, g.mainCache
    ensures r == Failure(key + " not exist")
    ensures g.getterCalls == old(g.getterCalls) + [key]
  {
    r := g.Get(key);
  }

  /** The keys of the slow database, in the order the model visits them
      (Go ranges over its map in an unspecified order). */
  const DbKeys: seq<string> := ["Tom", "Jack", "Sam"]

  /** Each database key is short, non-empty and holds a three-byte score. */
  lemma DbKeyFacts(i: nat)
    requires i < |DbKeys|
    ensures DbKeys[i] != "" && |DbKeys[i]| <= 4
    ensures SlowDb(DbKeys[i]).Success? && |SlowDb(DbKeys[i]).value| == 3
    ensures forall j :: i < j < |DbKeys| ==> DbKeys[j] != DbKeys[i]
  {
  }

  /** The loop of `TestGet`: every score is loaded by its first `Get` and
      served from the store by its second; the store then holds only
      those keys. */
  method LoadScores(g: Group) returns (loaded: seq<Result<ByteView, string>>, again: seq<Result<ByteView, string>>)
    requires g.Valid() && g.getter == SlowDb && g.mainCache.maxBytes == 2048
    requires g.mainCache.ll == [] && g.getterCalls == []
    modifies g, g.mainCache
    ensures g.Valid() && g.getter == SlowDb
    ensures |loaded| == |DbKeys| && again == loaded
    ensures forall j :: 0 <= j < |DbKeys| ==> loaded[j] == Success(OfBytes(SlowDb(DbKeys[j]).value))
    ensures forall k :: k in g.mainCache.cache ==> |k| <= 4
    ensures g.getterCalls == DbKeys
  {
    loaded, again := [], [];
    var i := 0;
    while i < |DbKeys|
      invariant 0 <= i <= |DbKeys| && |loaded| == i && again == loaded
      invariant g.Valid() && g.getter == SlowDb && g.mainCache.maxBytes == 2048
      invariant g.mainCache.cache.Keys <= {"Tom", "Jack", "Sam"}
      invariant forall j :: i <= j < |DbKeys| ==> DbKeys[j] !in g.mainCache.cache
      invariant g.mainCache.nbytes <= 7 * i
      invariant forall j :: 0 <= j < i ==> loaded[j] == Success(OfBytes(SlowDb(DbKeys[j]).value))
      invariant g.getterCalls == DbKeys[..i]
    {
      var key := DbKeys[i];
      DbKeyFacts(i);
      var first, second := GetTwice(g, key);
      loaded, again := loaded + [first], again + [second];
      assert DbKeys[..i + 1] == DbKeys[..i] + [key];
      i := i + 1;
    }
    assert DbKeys[..i] == DbKeys;
  }

  /** `TestGet`: in a 2048-byte group, each score is loaded by the first
      `Get` and served from the store by the second, so the database sees
      every key once; an unknown key is an error. */
  method TestGet() returns (loaded: seq<Result<ByteView, string>>, again: seq<Result<ByteView, string>>,
                            unknown: Result<ByteView, string>, ghost calls: seq<string>)
    ensures |loaded| == 3 && again == loaded
    ensures forall j :: 0 <= j < 3 ==> loaded[j].Success?
    ensures String(loaded[0].value) == [54, 51, 48]
    ensures String(loaded[1].value) == [53, 56, 57]
    ensures String(loaded[2].value) == [53, 54, 55]
    ensures unknown == Failure("unknown" + " not exist")
    ensures calls == DbKeys + ["unknown"]
  {
    var registry := new Registry();
    var made := registry.NewGroup("scores", 2048, Some(SlowDb));
    var g := made.value;
    loaded, again := LoadScores(g);
    unknown := GetMissing(g, "unknown");
    calls := g.getterCalls;
  }

  /** `TestGetGroup`: a registered group is found under its name, and a
      name nobody registered finds nothing. */
  method TestGetGroup() returns (found: Option<Group>, missing: Option<Group>)
    ensures found.Some? && found.value.name == "scores"
    ensures missing.None?
  {
    var registry := new Registry();
    var made := registry.NewGroup("scores", 2048, Some((key: string) => Success([])));
    found := registry.GetGroup("scores");
    missing := registry.GetGroup("scores111");
  }
}

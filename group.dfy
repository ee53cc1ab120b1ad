/** The cache namespace of go-cache/day6-single-flight/gencache/gencache.go:
    a named `Group` with a byte-budget store, a local loader and an
    optional peer picker, and the process-wide registry of groups.
    Calls to the loader and to peers are recorded in ghost logs, so the
    contracts can say which of them a `Get` made. */
module GroupCache {
  import opened Wrappers
  import opened ByteViews
  import ByteLru
  import EntryList

  /** `Getter` (and its `GetterFunc` adapter): load the bytes of a key. */
  type Getter = string -> Result<seq<byte>, string>

  /** `PeerGetter.Get(group, key)`: fetch a value from a remote node. */
  type PeerGetter = (string, string) -> Result<seq<byte>, string>

  /** `PeerPicker.PickPeer(key)`: the remote node owning a key, if any. */
  type PeerPicker = string -> Option<PeerGetter>

  /** Where `load` found a value, or why it found none. */
  datatype Fetch = FromPeer(bytes: seq<byte>) | FromGetter(bytes: seq<byte>) | Failed(error: string)

  /** A peer is registered, picks a node for the key, and that node answers. */
  predicate PeerServes(peers: Option<PeerPicker>, group: string, key: string) {
    && peers.Some?
    && peers.value(key).Some?
    && peers.value(key).value(group, key).Success?
  }

  /** The decision of `load`: the peer's bytes when a peer serves the key,
      otherwise whatever the local getter answers. */
  function Load(peers: Option<PeerPicker>, getter: Getter, group: string, key: string): (f: Fetch)
    ensures f.FromPeer? <==> PeerServes(peers, group, key)
    ensures f.FromPeer? ==> f.bytes == peers.value(key).value(group, key).value
    ensures !PeerServes(peers, group, key) ==>
      && (f.FromGetter? <==> getter(key).Success?)
      && (f.FromGetter? ==> f.bytes == getter(key).value)
      && (f.Failed? ==> f.error == getter(key).error)
  {
    if PeerServes(peers, group, key) then FromPeer(peers.value(key).value(group, key).value)
    else match getter(key)
      case Success(bytes) => FromGetter(bytes)
      case Failure(e) => Failed(e)
  }

  class Group {
    const name: string
    const getter: Getter
    const mainCache: ByteLru.Cache<ByteView>
    var peers: Option<PeerPicker>
    /** Keys passed to the local getter, in call order. */
    ghost var getterCalls: seq<string>
    /** `(group, key)` requests sent to peers, in call order. */
    ghost var peerCalls: seq<(string, string)>

    /** The store is a valid byte-budget LRU charging `Len()` per value,
        without an eviction callback (`lru.New(cacheBytes, nil)`). */
    ghost predicate Valid()
      reads this, mainCache
    {
      mainCache.Valid() && mainCache.valueLen == ViewLen && !mainCache.hasOnEvicted
    }

    /** The `&Group{...}` literal of `NewGroup`: an empty store with a
        budget of `cacheBytes` and no peers. */
    constructor (name: string, cacheBytes: int, getter: Getter)
      requires cacheBytes >= 0
      ensures Valid() && fresh(mainCache)
      ensures this.name == name && this.getter == getter && peers == None
      ensures mainCache.maxBytes == cacheBytes && mainCache.ll == []
      ensures getterCalls == [] && peerCalls == []
    {
      this.name := name;
      this.getter := getter;
      mainCache := new ByteLru.Cache.New(cacheBytes, ViewLen, false);
      peers := None;
      getterCalls := [];
      peerCalls := [];
    }

    /** `RegisterPeers`: sets the picker once; a second call panics and
        leaves the first picker in place. */
    method RegisterPeers(picker: PeerPicker) returns (r: Outcome<()>)
      modifies this
      ensures old(peers).Some? ==>
        r == Panicked("RegisterPeerPicker called more than once") && peers == old(peers)
      ensures old(peers).None? ==> r == Returned(()) && peers == Some(picker)
      ensures getterCalls == old(getterCalls) && peerCalls == old(peerCalls)
    {
      if peers.Some? {
        return Panicked("RegisterPeerPicker called more than once");
      }
      peers := Some(picker);
      return Returned(());
    }

    /** `getFromPeer`: asks the peer for `(name, key)` and wraps its bytes. */
    method GetFromPeer(peer: PeerGetter, key: string) returns (r: Result<ByteView, string>)
      modifies this
      ensures peers == old(peers) && getterCalls == old(getterCalls)
      ensures peerCalls == old(peerCalls) + [(name, key)]
      ensures peer(name, key).Success? ==> r == Success(OfBytes(peer(name, key).value))
      ensures peer(name, key).Failure? ==> r == Failure(peer(name, key).error)
    {
      peerCalls := peerCalls + [(name, key)];
      var answer := peer(name, key);
      if answer.Failure? {
        return Failure(answer.error);
      }
      return Success(OfBytes(answer.value));
    }

    /** `populateCache`: adds the value to the store. */
    method PopulateCache(key: string, value: ByteView)
      requires Valid()
      modifies mainCache
      ensures Valid()
      ensures key in old(mainCache.cache) ==>
        mainCache.ll == EntryList.Refresh(old(mainCache.ll), EntryList.IndexOf(old(mainCache.ll), key), value)
      ensures key !in old(mainCache.cache) ==>
        mainCache.ll == ByteLru.Evict([EntryList.Entry(key, value)] + old(mainCache.ll), mainCache.maxBytes, ViewLen)
      ensures mainCache.maxBytes == old(mainCache.maxBytes)
    {
      mainCache.Add(key, value);
    }

    /** `getLocally`: calls the getter; on success caches a clone of the
        bytes and returns it, on failure returns the error and caches
        nothing. */
    method GetLocally(key: string) returns (r: Result<ByteView, string>)
      requires Valid()
      modifies this, mainCache
      ensures Valid()
      ensures peers == old(peers) && peerCalls == old(peerCalls)
      ensures getterCalls == old(getterCalls) + [key]
      ensures mainCache.maxBytes == old(mainCache.maxBytes)
      ensures getter(key).Failure? ==>
        r == Failure(getter(key).error) && mainCache.ll == old(mainCache.ll) && mainCache.cache == old(mainCache.cache)
      ensures getter(key).Success? ==>
        && r == Success(OfBytes(getter(key).value))
        && (key !in old(mainCache.cache) ==>
              mainCache.ll == ByteLru.Evict([EntryList.Entry(key, r.value)] + old(mainCache.ll), mainCache.maxBytes, ViewLen))
    {
      getterCalls := getterCalls + [key];
      var answer := getter(key);
      if answer.Failure? {
        return Failure(answer.error);
      }
      var value := OfBytes(CloneBytes(answer.value));
      PopulateCache(key, value);
      return Success(value);
    }

    /** `load`: tries the peer that owns the key, falls back to the local
        getter when there is no picker, no owner or the fetch fails. */
    method LoadKey(key: string) returns (r: Result<ByteView, string>)
      requires Valid()
      modifies this, mainCache
      ensures Valid()
      ensures peers == old(peers) && mainCache.maxBytes == old(mainCache.maxBytes)
      ensures var f := Load(peers, getter, name, key);
        && (f.FromPeer? ==> r == Success(OfBytes(f.bytes)) && mainCache.ll == old(mainCache.ll)
                             && mainCache.cache == old(mainCache.cache) && getterCalls == old(getterCalls))
        && (f.FromGetter? ==> r == Success(OfBytes(f.bytes)) && getterCalls == old(getterCalls) + [key]
                               && (key !in old(mainCache.cache) ==>
                                     mainCache.ll == ByteLru.Evict([EntryList.Entry(key, r.value)] + old(mainCache.ll),
                                                                   mainCache.maxBytes, ViewLen)))
        && (f.Failed? ==> r == Failure(f.error) && mainCache.ll == old(mainCache.ll)
                           && mainCache.cache == old(mainCache.cache) && getterCalls == old(getterCalls) + [key])
      ensures peerCalls == old(peerCalls) + (if peers.Some? && peers.value(key).Some? then [(name, key)] else [])
    {
      if peers.Some? {
        var picked := peers.value(key);
        if picked.Some? {
          var fromPeer := GetFromPeer(picked.value, key);
          if fromPeer.Success? {
            return fromPeer;
          }
        }
      }
      r := GetLocally(key);
    }

    /** `Get`: rejects the empty key; a hit is served from the store
        without loading; a miss is loaded. */
    method Get(key: string) returns (r: Result<ByteView, string>)
      requires Valid()
      modifies this, mainCache
      ensures Valid()
      ensures peers == old(peers) && mainCache.maxBytes == old(mainCache.maxBytes)
      ensures key == "" ==>
        && r == Failure("key is required")
        && mainCache.ll == old(mainCache.ll) && mainCache.cache == old(mainCache.cache)
        && getterCalls == old(getterCalls) && peerCalls == old(peerCalls)
      ensures key != "" && key in old(mainCache.cache) ==>
        && r == Success(old(mainCache.cache)[key])
        && mainCache.cache == old(mainCache.cache)
        && mainCache.ll == EntryList.Refresh(old(mainCache.ll), EntryList.IndexOf(old(mainCache.ll), key), r.value)
        && getterCalls == old(getterCalls) && peerCalls == old(peerCalls)
      ensures key != "" && key !in old(mainCache.cache) ==>
        var f := Load(peers, getter, name, key);
        && (f.FromPeer? ==> r == Success(OfBytes(f.bytes)) && mainCache.ll == old(mainCache.ll)
                             && mainCache.cache == old(mainCache.cache) && getterCalls == old(getterCalls))
        && (f.FromGetter? ==> r == Success(OfBytes(f.bytes)) && getterCalls == old(getterCalls) + [key]
                               && mainCache.ll == ByteLru.Evict([EntryList.Entry(key, r.value)] + old(mainCache.ll),
                                                                mainCache.maxBytes, ViewLen))
        && (f.Failed? ==> r == Failure(f.error) && mainCache.ll == old(mainCache.ll)
                           && mainCache.cache == old(mainCache.cache) && getterCalls == old(getterCalls) + [key])
        && peerCalls == old(peerCalls) + (if peers.Some? && peers.value(key).Some? then [(name, key)] else [])
    {
      if key == "" {
        return Failure("key is required");
      }
      var hit := mainCache.Get(key);
      if hit.Some? {
        return Success(hit.value);
      }
      r := LoadKey(key);
    }
  }

  /** The package-level `groups` map. */
  class Registry {
    var groups: map<string, Group>
    /** Every group object and store ever registered. */
    ghost var repr: set<object>

    /** Every registered group is valid, and no two share a store. */
    ghost predicate Valid()
      reads this, repr
    {
      && (forall n :: n in groups ==> groups[n] in repr && groups[n].mainCache in repr)
      && (forall n :: n in groups ==> groups[n].Valid())
      && (forall n, m :: n in groups && m in groups && groups[n] != groups[m] ==>
            groups[n].mainCache != groups[m].mainCache)
    }

    constructor ()
      ensures Valid() && groups == map[]
    {
      groups := map[];
      repr := {};
    }

    /** `NewGroup`: a nil getter panics; otherwise a fresh group is stored
        under `name`, replacing any group of that name. */
    method NewGroup(name: string, cacheBytes: int, getter: Option<Getter>) returns (r: Outcome<Group>)
      requires Valid() && cacheBytes >= 0
      modifies this
      ensures Valid()
      ensures getter.None? ==> r == Panicked("nil Getter") && groups == old(groups)
      ensures getter.Some? ==>
        && r.Returned? && fresh(r.value) && fresh(r.value.mainCache) && r.value.Valid()
        && r.value.name == name && r.value.getter == getter.value && r.value.peers == None
        && r.value.mainCache.maxBytes == cacheBytes && r.value.mainCache.ll == []
        && groups == old(groups)[name := r.value]
    {
      if getter.None? {
        return Panicked("nil Getter");
      }
      var g := new Group(name, cacheBytes, getter.value);
      groups := groups[name := g];
      repr := repr + {g, g.mainCache};
      return Returned(g);
    }

    /** `GetGroup`: the group registered under `name`, or nil. */
    method GetGroup(name: string) returns (r: Option<Group>)
      ensures name in groups <==> r.Some?
      ensures r.Some? ==> r.value == groups[name]
    {
      if name in groups {
        return Some(groups[name]);
      }
      return None;
    }
  }
}

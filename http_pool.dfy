/** The peer pool of go-cache/day7-protobuf/gencache/http.go: the server
    side that answers `/<basePath>/<group>/<key>` requests from the group
    registry, the peer table built on the consistent hash ring, and the
    client URL and status handling.  The transport, the protobuf codec and
    CRC-32 are parameters; the client's escaping is a parameter of
    `ClientGet`, and the escaping `http.go` uses and the server's path
    decoding are modelled in `UrlEscape`. */
module HttpPool {
  import opened Wrappers
  import opened Text
  import opened ByteViews
  import ConsistentHash
  import GroupCache
  import ByteLru
  import EntryList
  import opened UrlEscape

  const DefaultBasePath: string := "/_geecache/"
  const DefaultReplicas: int := 50

  const StatusOK: int := 200
  const StatusBadRequest: int := 400
  const StatusNotFound: int := 404
  const StatusInternalServerError: int := 500

  /** What `ServeHTTP` does with a request path before any lookup. */
  datatype Route = Unexpected | BadRequest | Lookup(group: string, key: string)

  /** The path check and `strings.SplitN(rest, "/", 2)` of `ServeHTTP`. */
  function RouteOf(path: string, basePath: string): (r: Route)
    ensures r.Unexpected? <==> !(basePath <= path)
    ensures r.BadRequest? <==> basePath <= path && '/' !in path[|basePath|..]
    ensures r.Lookup? ==> path == basePath + r.group + "/" + r.key && '/' !in r.group
  {
    if !(basePath <= path) then Unexpected
    else match Cut(path[|basePath|..], '/')
      case None => BadRequest
      case Some((group, key)) =>
        assert path == basePath + path[|basePath|..];
        Lookup(group, key)
  }

  /** The partner of `RouteOf`: every path made of the base path, a group
      without `/`, a `/` and any key (empty, or itself holding `/`) is
      routed to exactly that group and key. */
  lemma RouteOfRequestPath(basePath: string, group: string, key: string)
    requires '/' !in group
    ensures RouteOf(basePath + group + "/" + key, basePath) == Lookup(group, key)
  {
    var path := basePath + group + "/" + key;
    assert basePath <= path;
    assert path[|basePath|..] == group + ['/'] + key;
    CutAt(group, key, '/');
  }

  /** What `ServeHTTP` writes back. */
  datatype Reply =
    | HttpError(status: int, message: string)
    | Body(contentType: string, bytes: seq<byte>)

  /** The reply for an answered `Group.Get`: its error text with 500, or
      the encoded `Response{Value}` as an octet stream (500 when encoding
      fails). */
  function Respond(got: Result<ByteView, string>, marshal: seq<byte> -> Result<seq<byte>, string>): (reply: Reply)
    ensures got.Failure? ==> reply == HttpError(StatusInternalServerError, got.error)
    ensures got.Success? && marshal(ByteSlice(got.value)).Failure? ==>
      reply == HttpError(StatusInternalServerError, marshal(ByteSlice(got.value)).error)
    ensures got.Success? && marshal(ByteSlice(got.value)).Success? ==>
      reply == Body("application/octet-stream", marshal(got.value.Content()).value)
  {
    match got
      case Failure(e) => HttpError(StatusInternalServerError, e)
      case Success(view) =>
        match marshal(ByteSlice(view))
          case Failure(e) => HttpError(StatusInternalServerError, e)
          case Success(body) => Body("application/octet-stream", body)
  }

  /** `httpGetter`: a peer's base URL. */
  datatype HttpGetter = HttpGetter(baseURL: string)

  /** What the transport returns for a GET: status code and text, and the
      result of reading the body. */
  datatype HttpResponse = HttpResponse(statusCode: int, status: string, body: Result<seq<byte>, string>)

  /** The URL `httpGetter.Get` requests. */
  function RequestURL(h: HttpGetter, group: string, key: string, escape: string -> string): (u: string)
    ensures u == h.baseURL + escape(group) + "/" + escape(key)
    ensures |u| == |h.baseURL| + |escape(group)| + 1 + |escape(key)|
  {
    h.baseURL + escape(group) + "/" + escape(key)
  }

  /** `httpGetter.Get`: transport errors come back unchanged, a non-200
      status becomes "server returned: <status>", and read or decode
      failures are wrapped; otherwise the decoded value. */
  function ClientGet(h: HttpGetter, group: string, key: string, escape: string -> string,
                     get: string -> Result<HttpResponse, string>,
                     unmarshal: seq<byte> -> Result<seq<byte>, string>): (r: Result<seq<byte>, string>)
    ensures var res := get(RequestURL(h, group, key, escape));
      && (res.Failure? ==> r == Failure(res.error))
      && (res.Success? && res.value.statusCode != StatusOK ==>
            r == Failure("server returned: " + res.value.status))
      && (res.Success? && res.value.statusCode == StatusOK && res.value.body.Failure? ==>
            r == Failure("reading response body: " + res.value.body.error))
      && (res.Success? && res.value.statusCode == StatusOK && res.value.body.Success? ==>
            r == match unmarshal(res.value.body.value)
                   case Failure(e) => Failure("decoding response body: " + e)
                   case Success(v) => Success(v))
  {
    match get(RequestURL(h, group, key, escape))
      case Failure(e) => Failure(e)
      case Success(res) =>
        if res.statusCode != StatusOK then Failure("server returned: " + res.status)
        else match res.body
          case Failure(e) => Failure("reading response body: " + e)
          case Success(bytes) =>
            match unmarshal(bytes)
              case Failure(e) => Failure("decoding response body: " + e)
              case Success(v) => Success(v)
  }

  /** The request path the server decodes from the URL a client at `peer`
      (scheme and host, no path) requests, escaping with `escape`. */
  function ServerPath(peer: string, basePath: string, group: string, key: string,
                      escape: string -> string): (p: string)
    ensures RequestURL(HttpGetter(peer + basePath), group, key, escape)
            == peer + (basePath + escape(group) + "/" + escape(key))
    ensures p == PathUnescape(basePath + escape(group) + "/" + escape(key))
  {
    var u := RequestURL(HttpGetter(peer + basePath), group, key, escape);
    assert u[|peer|..] == basePath + escape(group) + "/" + escape(key);
    PathUnescape(u[|peer|..])
  }

  /** The client as written: `url.QueryEscape` turns a space into `+`,
      and the server's path decoding keeps `+`, so the server looks up
      the group and the key with every space replaced by `+`. */
  lemma QueryEscapedRoute(peer: string, basePath: string, group: string, key: string)
    requires '%' !in basePath && '/' !in group
    ensures RouteOf(ServerPath(peer, basePath, group, key, QueryEscape), basePath)
            == Lookup(SpaceToPlus(group), SpaceToPlus(key))
  {
    DecodeQueryEscapedPath(basePath, group, key);
    assert '/' !in SpaceToPlus(group) by {
      forall i | 0 <= i < |group| ensures SpaceToPlus(group)[i] != '/' {
        assert group[i] != '/';
      }
    }
    RouteOfRequestPath(basePath, SpaceToPlus(group), SpaceToPlus(key));
  }

  /** The input that shows it: asking a peer for key `"a b"` of group
      `"scores"` makes that peer look up `"a+b"`. */
  lemma SpacedKeyMisrouted()
    ensures var route := RouteOf(ServerPath("http://localhost:8001", DefaultBasePath, "scores", "a b", QueryEscape),
                                 DefaultBasePath);
      route == Lookup("scores", "a+b") && route != Lookup("scores", "a b")
  {
    var peer, group, key := "http://localhost:8001", "scores", "a b";
    SpaceFreeUnchanged(group);
    SpacedExample();
    QueryEscapedRoute(peer, DefaultBasePath, group, key);
  }

  /** The client and the server agree once the client escapes with
      `url.PathEscape`: the path the server decodes routes to exactly the
      group and key asked for, whatever bytes the key holds. */
  lemma ClientPathRoutes(peer: string, basePath: string, group: string, key: string)
    requires '%' !in basePath && '/' !in group
    ensures RouteOf(ServerPath(peer, basePath, group, key, PathEscape), basePath) == Lookup(group, key)
  {
    DecodePathEscapedPath(basePath, group, key);
    RouteOfRequestPath(basePath, group, key);
  }

  /** The input that shows the second misroute: group `"a/b"`.  Either
      escaping writes its `/` as `%2F`, the server decodes it back before
      `SplitN`, and the split falls inside the group name. */
  lemma SlashedGroupMisrouted()
    ensures var route := RouteOf(ServerPath("http://localhost:8001", DefaultBasePath, "a/b", "k", QueryEscape),
                                 DefaultBasePath);
      route == Lookup("a", "b/k") && route != Lookup("a/b", "k")
    ensures RouteOf(ServerPath("http://localhost:8001", DefaultBasePath, "a/b", "k", PathEscape), DefaultBasePath)
            == Lookup("a", "b/k")
  {
    var peer, base, group, key := "http://localhost:8001", DefaultBasePath, "a/b", "k";
    var left, right := "a", "b/k";
    assert group + "/" + key == left + "/" + right;
    assert base + group + "/" + key == base + left + "/" + right;
    SpaceFreeUnchanged(group);
    SpaceFreeUnchanged(key);
    DecodeQueryEscapedPath(base, group, key);
    DecodePathEscapedPath(base, group, key);
    RouteOfRequestPath(base, left, right);
  }

  /** The request path as the client sends it, before the server decodes
      it (`r.URL.EscapedPath()`). */
  function RawPath(peer: string, basePath: string, group: string, key: string,
                   escape: string -> string): (p: string)
    ensures RequestURL(HttpGetter(peer + basePath), group, key, escape) == peer + p
    ensures ServerPath(peer, basePath, group, key, escape) == PathUnescape(p)
  {
    basePath + escape(group) + "/" + escape(key)
  }

  /** The server split done on the escaped path, with the group and the
      key each decoded after the split: the prefix check and the 400 case
      are those of `RouteOf` on the escaped path. */
  function RouteOfEscaped(raw: string, basePath: string): (r: Route)
    ensures r.Unexpected? <==> !(basePath <= raw)
    ensures r.BadRequest? <==> basePath <= raw && '/' !in raw[|basePath|..]
  {
    match RouteOf(raw, basePath)
      case Lookup(group, key) => Lookup(PathUnescape(group), PathUnescape(key))
      case other => other
  }

  /** The client and the server agree for every group and key when the
      client escapes with `url.PathEscape` and the server splits before it
      decodes: an escaped group holds no `/`, and each piece decodes back
      to what was asked for. */
  lemma ClientEscapedRoutes(peer: string, basePath: string, group: string, key: string)
    ensures RouteOfEscaped(RawPath(peer, basePath, group, key, PathEscape), basePath) == Lookup(group, key)
  {
    PathEscapeNoSlash(group);
    RouteOfRequestPath(basePath, PathEscape(group), PathEscape(key));
    DecodePathEscaped(group);
    DecodePathEscaped(key);
  }

  lemma SuffixCancel(a: string, b: string, suffix: string)
    requires a + suffix == b + suffix
    ensures a == b
  {
    assert a == (a + suffix)[..|a|];
    assert b == (b + suffix)[..|b|];
  }

  class HTTPPool {
    const self: string
    const basePath: string
    /** `crc32.ChecksumIEEE`, the ring's default hash. */
    const ieee: ConsistentHash.Hash
    /** The ring; nil until `Set`. */
    var ring: ConsistentHash.Map?
    var httpGetters: map<string, HttpGetter>

    /** Every getter serves its peer under the base path, and once `Set`
        ran the ring holds exactly the peers of the getter table, with the
        default replica count. */
    ghost predicate Valid()
      reads this, ring
    {
      && (forall p :: p in httpGetters ==> httpGetters[p] == HttpGetter(p + basePath))
      && (ring != null ==> ring.Valid() && ring.replicas == DefaultReplicas && ring.nodes == httpGetters.Keys)
    }

    /** `NewHTTPPool(self)`: the default base path and no ring yet. */
    constructor (self: string, ieee: ConsistentHash.Hash)
      ensures Valid()
      ensures this.self == self && basePath == DefaultBasePath && this.ieee == ieee
      ensures ring == null && httpGetters == map[]
    {
      this.self := self;
      basePath := DefaultBasePath;
      this.ieee := ieee;
      ring := null;
      httpGetters := map[];
    }

    /** `Set(peers...)`: a fresh ring of `DefaultReplicas` replicas over
        exactly these peers, and a getter for each at `peer + basePath`. */
    method Set(peers: seq<string>)
      requires Valid()
      modifies this
      ensures Valid() && ring != null && fresh(ring)
      ensures ring.hash == ieee && ring.replicas == DefaultReplicas
      ensures ring.nodes == set p | p in peers
      ensures multiset(ring.keys) == multiset(ConsistentHash.VirtualKeys(ieee, DefaultReplicas, peers))
      ensures ring.hashMap == ConsistentHash.Assign(map[], ieee, DefaultReplicas, peers)
      ensures httpGetters == map p | p in peers :: HttpGetter(p + basePath)
    {
      var m := new ConsistentHash.Map.New(DefaultReplicas, None, ieee);
      m.Add(peers);
      var getters := map[];
      for i := 0 to |peers|
        invariant getters == map p | p in peers[..i] :: HttpGetter(p + basePath)
      {
        assert peers[..i + 1] == peers[..i] + [peers[i]];
        getters := getters[peers[i] := HttpGetter(peers[i] + basePath)];
      }
      assert peers[..|peers|] == peers;
      ring := m;
      httpGetters := getters;
    }

    /** `PickPeer(key)`: the getter of the ring owner of `key`, unless the
        ring is empty or the owner is this node itself; so a node never
        picks its own base URL. */
    method PickPeer(key: string) returns (r: Option<HttpGetter>)
      requires Valid() && ring != null
      ensures var owner := ring.Owner(ring.hash(key));
        && (r.Some? <==> owner != "" && owner != self)
        && (r.Some? ==> owner in httpGetters && r.value == httpGetters[owner])
      ensures r.Some? ==> r.value.baseURL != self + basePath
    {
      var owner := ring.Get(key);
      if owner != "" && owner != self {
        if owner + basePath == self + basePath {
          SuffixCancel(owner, self, basePath);
        }
        return Some(httpGetters[owner]);
      }
      return None;
    }

    /** `ServeHTTP`: an unexpected path panics; otherwise the path is
        routed, the group looked up and asked for the key, and the reply
        built from the answer.  `got` is that answer, which is what the
        group's `Get` promises: the stored value on a hit, and on a miss
        what `load` decides between the owning peer and the getter.  The
        group's store and logs change as that `Get` changes them, and no
        other registered group changes. */
    method ServeHTTP(registry: GroupCache.Registry, path: string,
                     marshal: seq<byte> -> Result<seq<byte>, string>)
      returns (r: Outcome<Reply>, ghost got: Option<Result<ByteView, string>>)
      requires registry.Valid()
      modifies registry.repr
      ensures registry.Valid() && registry.groups == old(registry.groups)
      ensures var route := RouteOf(path, basePath);
        && (route.Unexpected? ==> r == Panicked("HTTPPool serving unexpected path: " + path) && got == None)
        && (route.BadRequest? ==> r == Returned(HttpError(StatusBadRequest, "bad request")) && got == None)
        && (route.Lookup? && route.group !in registry.groups ==>
              r == Returned(HttpError(StatusNotFound, "no such group: " + route.group)) && got == None)
        && (route.Lookup? && route.group in registry.groups ==>
              got.Some? && r == Returned(Respond(got.value, marshal)))
      ensures var route := RouteOf(path, basePath);
        route.Lookup? && route.group in registry.groups ==>
          var g := registry.groups[route.group];
          var f := GroupCache.Load(old(g.peers), g.getter, g.name, route.key);
          && (route.key == "" ==> got.value == Failure("key is required"))
          && (route.key != "" && route.key in old(g.mainCache.cache) ==>
                got.value == Success(old(g.mainCache.cache)[route.key]))
          && (route.key != "" && route.key !in old(g.mainCache.cache) ==>
                got.value == if f.Failed? then Failure(f.error) else Success(OfBytes(f.bytes)))
      ensures var route := RouteOf(path, basePath);
        route.Lookup? && route.group in registry.groups ==>
          var g, key := registry.groups[route.group], route.key;
          && g.peers == old(g.peers) && g.mainCache.maxBytes == old(g.mainCache.maxBytes)
          && (key == "" || key in old(g.mainCache.cache) ==>
                && g.mainCache.cache == old(g.mainCache.cache)
                && g.getterCalls == old(g.getterCalls) && g.peerCalls == old(g.peerCalls))
          && (key == "" ==> g.mainCache.ll == old(g.mainCache.ll))
          && (key != "" && key in old(g.mainCache.cache) ==>
                g.mainCache.ll == EntryList.Refresh(old(g.mainCache.ll), EntryList.IndexOf(old(g.mainCache.ll), key),
                                                    old(g.mainCache.cache)[key]))
      ensures var route := RouteOf(path, basePath);
        route.Lookup? && route.group in registry.groups && route.key != "" &&
        route.key !in old(registry.groups[route.group].mainCache.cache) ==>
          var g, key := registry.groups[route.group], route.key;
          var f := GroupCache.Load(old(g.peers), g.getter, g.name, key);
          && (f.FromPeer? || f.Failed? ==>
                g.mainCache.ll == old(g.mainCache.ll) && g.mainCache.cache == old(g.mainCache.cache))
          && (f.FromGetter? ==>
                g.mainCache.ll == ByteLru.Evict([EntryList.Entry(key, OfBytes(f.bytes))] + old(g.mainCache.ll),
                                                g.mainCache.maxBytes, ViewLen))
          && g.getterCalls == old(g.getterCalls) + (if f.FromPeer? then [] else [key])
          && g.peerCalls == old(g.peerCalls)
               + (if old(g.peers).Some? && old(g.peers).value(key).Some? then [(g.name, key)] else [])
      ensures var route := RouteOf(path, basePath);
        var served := route.Lookup? && route.group in registry.groups;
        forall n :: n in registry.groups && !(served && registry.groups[n] == registry.groups[route.group]) ==>
          unchanged(registry.groups[n], registry.groups[n].mainCache)
    {
      if !(basePath <= path) {
        return Panicked("HTTPPool serving unexpected path: " + path), None;
      }
      var parts := Cut(path[|basePath|..], '/');
      if parts.None? {
        return Returned(HttpError(StatusBadRequest, "bad request")), None;
      }
      var groupName, key := parts.value.0, parts.value.1;
      var group := registry.GetGroup(groupName);
      if group.None? {
        return Returned(HttpError(StatusNotFound, "no such group: " + groupName)), None;
      }
      var g := group.value;
      var view := g.Get(key);
      got := Some(view);
      if view.Failure? {
        return Returned(HttpError(StatusInternalServerError, view.error)), got;
      }
      var body := marshal(ByteSlice(view.value));
      if body.Failure? {
        return Returned(HttpError(StatusInternalServerError, body.error)), got;
      }
      return Returned(Body("application/octet-stream", body.value)), got;
    }
  }
}

/** The string logic shared by the trie routers of
    go-web/day3-router/gen/router.go and go-web/day5-middlewares/gen/router.go
    (the two files have the same `parsePattern`, `routeKey` and parameter
    binding): splitting a pattern into parts, the handler key, and binding
    `:name` and `*name` parameters from the request path's parts. */
module Routes {
  import opened Text

  /** A part that starts with `*`: parsing stops right after it. */
  predicate IsWildcard(part: string) {
    |part| > 0 && part[0] == '*'
  }

  /** The loop body of `parsePattern` over the pieces of `strings.Split`:
      empty pieces are dropped and the first wildcard piece is the last
      one kept. */
  function Keep(items: seq<string>): (parts: seq<string>)
    ensures forall i :: 0 <= i < |parts| ==> parts[i] != ""
    ensures forall i :: 0 <= i < |parts| - 1 ==> !IsWildcard(parts[i])
    ensures |parts| <= |items|
    decreases |items|
  {
    if |items| == 0 then []
    else if items[0] == "" then Keep(items[1..])
    else if items[0][0] == '*' then [items[0]]
    else [items[0]] + Keep(items[1..])
  }

  /** `parsePattern(pattern)`, as a value. */
  function PatternParts(pattern: string): seq<string> {
    Keep(Split(pattern, '/'))
  }

  /** `parsePattern`: walks the `/`-separated pieces, keeps the non-empty
      ones, and stops after the first one starting with `*`. */
  method ParsePattern(pattern: string) returns (parts: seq<string>)
    ensures parts == PatternParts(pattern)
  {
    var vs := Split(pattern, '/');
    parts := [];
    var i := 0;
    while i < |vs|
      invariant 0 <= i <= |vs|
      invariant parts + Keep(vs[i..]) == Keep(vs)
    {
      var item := vs[i];
      assert vs[i..][1..] == vs[i + 1..];
      if item != "" {
        parts := parts + [item];
        if item[0] == '*' {
          return;
        }
      }
      i := i + 1;
    }
  }

  /** The parts of a pattern: never empty, free of `/`, and only the last
      may start with `*`. */
  lemma {:induction false} PatternPartsShape(pattern: string)
    ensures var parts := PatternParts(pattern);
      && (forall i :: 0 <= i < |parts| ==> parts[i] != "" && '/' !in parts[i])
      && (forall i :: 0 <= i < |parts| - 1 ==> !IsWildcard(parts[i]))
  {
    KeepFrom(Split(pattern, '/'));
  }

  /** Every part `Keep` returns is one of its pieces. */
  lemma {:induction false} KeepFrom(items: seq<string>)
    ensures forall i :: 0 <= i < |Keep(items)| ==> Keep(items)[i] in items
    decreases |items|
  {
    if |items| > 0 && items[0] == "" {
      KeepFrom(items[1..]);
    } else if |items| > 0 && items[0][0] != '*' {
      KeepFrom(items[1..]);
      var rest := Keep(items[1..]);
      forall i | 0 <= i < |Keep(items)| ensures Keep(items)[i] in items {
        if i > 0 { assert Keep(items)[i] == rest[i - 1]; }
      }
    }
  }

  /** The non-empty pieces, in order. */
  function NonEmpty(items: seq<string>): seq<string>
    decreases |items|
  {
    if |items| == 0 then []
    else if items[0] == "" then NonEmpty(items[1..])
    else [items[0]] + NonEmpty(items[1..])
  }

  /** Without a wildcard piece, `parsePattern` is exactly the non-empty
      `/`-separated pieces in order. */
  lemma {:induction false} KeepWithoutWildcard(items: seq<string>)
    requires forall i :: 0 <= i < |items| ==> !IsWildcard(items[i])
    ensures Keep(items) == NonEmpty(items)
    decreases |items|
  {
    if |items| > 0 {
      assert !IsWildcard(items[0]);
      KeepWithoutWildcard(items[1..]);
    }
  }

  /** Parsing `"/" + join(parts, "/")` gives back the parts, when they are
      non-empty, free of `/`, and only the last may start with `*`. */
  lemma {:induction false} ParseJoined(parts: seq<string>)
    requires forall i :: 0 <= i < |parts| ==> parts[i] != "" && '/' !in parts[i]
    requires forall i :: 0 <= i < |parts| - 1 ==> !IsWildcard(parts[i])
    ensures PatternParts(Join([""] + parts, '/')) == parts
  {
    var pieces := [""] + parts;
    forall i | 0 <= i < |pieces| ensures '/' !in pieces[i] {
      if i > 0 { assert pieces[i] == parts[i - 1]; }
    }
    SplitJoin(pieces, '/');
    assert pieces[1..] == parts;
    KeepAll(parts);
  }

  lemma {:induction false} KeepAll(parts: seq<string>)
    requires forall i :: 0 <= i < |parts| ==> parts[i] != ""
    requires forall i :: 0 <= i < |parts| - 1 ==> !IsWildcard(parts[i])
    ensures Keep(parts) == parts
    decreases |parts|
  {
    if |parts| > 1 {
      assert !IsWildcard(parts[0]);
      KeepAll(parts[1..]);
      assert [parts[0]] + parts[1..] == parts;
    } else if |parts| == 1 {
      assert Keep(parts[1..]) == [];
      assert [parts[0]] == parts;
    }
  }

  /** What a router's `handle` does with a request: run a registered
      handler, or write a response itself. */
  datatype Dispatch<H> = Invoke(handler: H) | Respond(status: int, body: string)

  const StatusNotFound: int := 404

  /** The text of `c.String(http.StatusNotFound, "404 NOT FOUND: %s\n", c.Path)`. */
  function NotFoundBody(path: string): string {
    "404 NOT FOUND: " + path + "\n"
  }

  /** `routeKey(method, pattern)`: the HTTP method, `-`, the pattern. */
  function RouteKey(verb: string, pattern: string): (key: string)
    ensures |key| == |verb| + 1 + |pattern|
  {
    verb + "-" + pattern
  }

  /** Handler keys do not collide as long as method names hold no `-`
      (as `GET` and `POST` do not). */
  lemma RouteKeyInjective(m1: string, p1: string, m2: string, p2: string)
    requires '-' !in m1 && '-' !in m2
    requires RouteKey(m1, p1) == RouteKey(m2, p2)
    ensures m1 == m2 && p1 == p2
  {
    var k := RouteKey(m1, p1);
    CutAt(m1, p1, '-');
    CutAt(m2, p2, '-');
    assert k == m1 + ['-'] + p1 && k == m2 + ['-'] + p2;
  }

  /** A part that binds the path part at its own index. */
  predicate BindsColon(part: string) {
    |part| > 0 && part[0] == ':'
  }

  /** A `*name` part with a non-empty name: it binds the rest of the path
      and ends the binding loop. */
  predicate StopsBinding(part: string) {
    |part| > 1 && part[0] == '*'
  }

  /** A part that binds a parameter once it is reached. */
  predicate Binds(part: string) {
    BindsColon(part) || StopsBinding(part)
  }

  /** The number of parts the binding loop visits: up to and including the
      first `*name`, or all of them. */
  function Limit(parts: seq<string>): (n: nat)
    ensures n <= |parts|
    ensures forall j :: 0 <= j < n - 1 ==> !StopsBinding(parts[j])
    ensures n < |parts| ==> n > 0 && StopsBinding(parts[n - 1])
    ensures n == |parts| && n > 0 && !StopsBinding(parts[n - 1]) ==>
      forall j :: 0 <= j < n ==> !StopsBinding(parts[j])
    decreases |parts|
  {
    if |parts| == 0 then 0
    else if StopsBinding(parts[0]) then 1
    else 1 + Limit(parts[1..])
  }

  /** One visited part: `:name` binds the path part at the same index;
      `*name` binds the rest of the path joined with `/`. */
  function BindStep(params: map<string, string>, part: string, search: seq<string>, i: nat): map<string, string>
    requires part != "" && i < |search|
  {
    var colon := if part[0] == ':' then params[part[1..] := search[i]] else params;
    if StopsBinding(part) then colon[part[1..] := Join(search[i..], '/')] else colon
  }

  /** The parameters bound after visiting the first `n` parts. */
  function Bound(parts: seq<string>, search: seq<string>, n: nat): map<string, string>
    requires n <= |parts| <= |search|
    requires forall i :: 0 <= i < |parts| ==> parts[i] != ""
  {
    if n == 0 then map[] else BindStep(Bound(parts, search, n - 1), parts[n - 1], search, n - 1)
  }

  /** The `params` map `getRoute` fills for a matched pattern. */
  function Params(parts: seq<string>, search: seq<string>): map<string, string>
    requires |parts| <= |search|
    requires forall i :: 0 <= i < |parts| ==> parts[i] != ""
  {
    Bound(parts, search, Limit(parts))
  }

  /** The binding loop of `getRoute`. */
  method BindParams(parts: seq<string>, search: seq<string>) returns (params: map<string, string>)
    requires |parts| <= |search|
    requires forall i :: 0 <= i < |parts| ==> parts[i] != ""
    ensures params == Params(parts, search)
  {
    params := map[];
    var index := 0;
    while index < |parts|
      invariant 0 <= index <= |parts|
      invariant params == Bound(parts, search, index)
      invariant forall j :: 0 <= j < index ==> !StopsBinding(parts[j])
    {
      var part := parts[index];
      if part[0] == ':' {
        params := params[part[1..] := search[index]];
      }
      if part[0] == '*' && |part| > 1 {
        params := params[part[1..] := Join(search[index..], '/')];
        LimitAt(parts, index);
        return;
      }
      index := index + 1;
    }
    LimitAt(parts, |parts|);
  }

  /** `Limit` is the index just past the first `*name`, or the length. */
  lemma {:induction false} LimitAt(parts: seq<string>, k: nat)
    requires k <= |parts|
    requires forall j :: 0 <= j < k ==> !StopsBinding(parts[j])
    requires k < |parts| ==> StopsBinding(parts[k])
    ensures Limit(parts) == if k < |parts| then k + 1 else |parts|
    decreases k
  {
    if k > 0 {
      LimitAt(parts[1..], k - 1);
    }
  }

  /** The parameter name of a binding part. */
  function Name(part: string): string
    requires part != ""
  {
    part[1..]
  }

  /** What a binding part binds to. */
  function Value(parts: seq<string>, search: seq<string>, i: nat): string
    requires i < |parts| <= |search|
  {
    if BindsColon(parts[i]) then search[i] else Join(search[i..], '/')
  }

  /** No two binding parts share a name. */
  ghost predicate DistinctNames(parts: seq<string>)
    requires forall i :: 0 <= i < |parts| ==> parts[i] != ""
  {
    forall i, j :: 0 <= i < j < |parts| && Binds(parts[i]) && Binds(parts[j]) ==> Name(parts[i]) != Name(parts[j])
  }

  /** With distinct names, every binding part among the first `n` keeps
      its own value, and nothing else is bound. */
  lemma {:induction false} BoundValues(parts: seq<string>, search: seq<string>, n: nat)
    requires n <= |parts| <= |search|
    requires forall i :: 0 <= i < |parts| ==> parts[i] != ""
    requires DistinctNames(parts)
    ensures forall i :: 0 <= i < n && Binds(parts[i]) ==>
      Name(parts[i]) in Bound(parts, search, n) && Bound(parts, search, n)[Name(parts[i])] == Value(parts, search, i)
    ensures forall k :: k in Bound(parts, search, n) ==>
      exists i :: 0 <= i < n && Binds(parts[i]) && Name(parts[i]) == k
    decreases n
  {
    if n > 0 {
      BoundValues(parts, search, n - 1);
      var part := parts[n - 1];
      assert !(BindsColon(part) && StopsBinding(part));
    }
  }

  /** `:name` at index `i` binds the path part at index `i`. */
  lemma ColonBinds(parts: seq<string>, search: seq<string>, i: nat)
    requires |parts| <= |search|
    requires forall j :: 0 <= j < |parts| ==> parts[j] != ""
    requires DistinctNames(parts)
    requires i < Limit(parts) && BindsColon(parts[i])
    ensures Name(parts[i]) in Params(parts, search)
    ensures Params(parts, search)[Name(parts[i])] == search[i]
  {
    BoundValues(parts, search, Limit(parts));
  }

  /** `*name` at index `i` binds the rest of the path from `i`, joined
      with `/`, and is the last part visited. */
  lemma WildcardBinds(parts: seq<string>, search: seq<string>, i: nat)
    requires |parts| <= |search|
    requires forall j :: 0 <= j < |parts| ==> parts[j] != ""
    requires DistinctNames(parts)
    requires i < |parts| && StopsBinding(parts[i])
    requires forall j :: 0 <= j < i ==> !StopsBinding(parts[j])
    ensures Limit(parts) == i + 1
    ensures Name(parts[i]) in Params(parts, search)
    ensures Params(parts, search)[Name(parts[i])] == Join(search[i..], '/')
  {
    LimitAt(parts, i);
    BoundValues(parts, search, Limit(parts));
  }
}

/** The trie router of go-web/day5-middlewares/gen/router.go and
    go-web/day3-router/gen/router.go.  The trie of each method is kept
    abstract: the router records which patterns were inserted for each
    method, and `search` stands for the trie's answer (a pattern that was
    inserted and has no more parts than the path). */
module TrieRouter {
  import opened Wrappers
  import opened Text
  import opened Routes

  /** An entry of the context's handler chain: a registered handler or
      middleware, or the 404 handler `handle` appends on a miss. */
  datatype Link<H> = Run(handler: H) | NotFound

  /** The fields of `Context` that routing reads and writes. */
  class Context<H> {
    const verb: string
    const path: string
    var params: map<string, string>
    var handlers: seq<Link<H>>
    /** Set by the engine that serves the request (day 6). */
    var engine: object?

    constructor (verb: string, path: string)
      ensures this.verb == verb && this.path == path
      ensures params == map[] && handlers == [] && engine == null
    {
      this.verb := verb;
      this.path := path;
      params := map[];
      handlers := [];
      engine := null;
    }
  }

  /** `search` only answers with a pattern inserted for this method and no
      longer than the path. */
  ghost predicate TrieAnswers(search: seq<string> -> Option<string>, patterns: set<string>) {
    forall parts :: search(parts).Some? ==>
      search(parts).value in patterns && |PatternParts(search(parts).value)| <= |parts|
  }

  class Router<H> {
    /** `roots`: the patterns inserted into each method's trie. */
    var roots: map<string, set<string>>
    var handlers: map<string, H>

    /** Every inserted pattern has a handler under its route key. */
    ghost predicate Valid()
      reads this
    {
      forall m, p :: m in roots && p in roots[m] ==> RouteKey(m, p) in handlers
    }

    /** `newRouter`. */
    constructor ()
      ensures Valid() && roots == map[] && handlers == map[]
    {
      roots := map[];
      handlers := map[];
    }

    /** `addRoute`: creates the method's root when absent, inserts the
        pattern, and stores the handler under the route key (a later
        registration overwrites an earlier one). */
    method AddRoute(verb: string, pattern: string, handler: H)
      requires Valid()
      modifies this
      ensures Valid()
      ensures roots == old(roots)[verb := (if verb in old(roots) then old(roots)[verb] else {}) + {pattern}]
      ensures handlers == old(handlers)[RouteKey(verb, pattern) := handler]
    {
      if verb !in roots {
        roots := roots[verb := {}];
      }
      var parts := ParsePattern(pattern);
      roots := roots[verb := roots[verb] + {pattern}];
      handlers := handlers[RouteKey(verb, pattern) := handler];
    }

    /** `getRoute`: `(nil, nil)` when the method has no root; otherwise the
        trie's answer for the path's parts and, when it found a pattern,
        the parameters bound from the path. */
    method GetRoute(verb: string, path: string, search: seq<string> -> Option<string>)
      returns (n: Option<string>, params: Option<map<string, string>>)
      requires Valid()
      requires verb in roots ==> TrieAnswers(search, roots[verb])
      ensures verb !in roots ==> n == None && params == None
      ensures verb in roots ==> n == search(PatternParts(path)) && params.Some?
      ensures n.None? && params.Some? ==> params.value == map[]
      ensures n.Some? ==>
        && n.value in roots[verb]
        && |PatternParts(n.value)| <= |PatternParts(path)|
        && params == Some(Params(PatternParts(n.value), PatternParts(path)))
    {
      if verb !in roots {
        return None, None;
      }
      var searchParts := ParsePattern(path);
      n := search(searchParts);
      if n.None? {
        return n, Some(map[]);
      }
      var parts := ParsePattern(n.value);
      PatternPartsShape(n.value);
      var bound := BindParams(parts, searchParts);
      params := Some(bound);
    }

    /** day 3 `handle`: runs exactly the handler registered for the method
        and the matched pattern, after setting the parameters; otherwise
        answers 404 with the path. */
    method Handle(c: Context<H>, search: seq<string> -> Option<string>) returns (d: Dispatch<H>)
      requires Valid()
      requires c.verb in roots ==> TrieAnswers(search, roots[c.verb])
      modifies c
      ensures c.handlers == old(c.handlers) && c.engine == old(c.engine)
      ensures var found := if c.verb in roots then search(PatternParts(c.path)) else None;
        && (found.Some? ==>
              && RouteKey(c.verb, found.value) in handlers
              && d == Invoke(handlers[RouteKey(c.verb, found.value)])
              && c.params == Params(PatternParts(found.value), PatternParts(c.path)))
        && (found.None? ==> d == Respond(StatusNotFound, NotFoundBody(c.path)) && c.params == old(c.params))
    {
      var n, params := GetRoute(c.verb, c.path, search);
      if n.Some? {
        c.params := params.value;
        return Invoke(handlers[RouteKey(c.verb, n.value)]);
      }
      return Respond(StatusNotFound, NotFoundBody(c.path));
    }

    /** day 5 `handle`: appends the matched route's handler after the
        middlewares already in the chain and sets the parameters, or
        appends the 404 handler and leaves the parameters alone. */
    method HandleChain(c: Context<H>, search: seq<string> -> Option<string>)
      requires Valid()
      requires c.verb in roots ==> TrieAnswers(search, roots[c.verb])
      modifies c
      ensures c.engine == old(c.engine)
      ensures var found := if c.verb in roots then search(PatternParts(c.path)) else None;
        && (found.Some? ==>
              && RouteKey(c.verb, found.value) in handlers
              && c.handlers == old(c.handlers) + [Run(handlers[RouteKey(c.verb, found.value)])]
              && c.params == Params(PatternParts(found.value), PatternParts(c.path)))
        && (found.None? ==> c.handlers == old(c.handlers) + [NotFound] && c.params == old(c.params))
    {
      var n, params := GetRoute(c.verb, c.path, search);
      if n.Some? {
        c.params := params.value;
        c.handlers := c.handlers + [Run(handlers[RouteKey(c.verb, n.value)])];
      } else {
        c.handlers := c.handlers + [NotFound];
      }
    }
  }
}

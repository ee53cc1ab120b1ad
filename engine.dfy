/** The engine and route groups of go-web/day6-template/gen/gen.go, which
    extends go-web/day5-middlewares/gen/gen.go (the same engine without
    `SetFuncMap` and without recording the engine in the context) and
    go-web/day4-group/gen/gen.go (groups and prefixes, no middlewares).
    `H` is the handler type `HandlerFunc`, `F` a template function. */
module WebEngine {
  import opened Wrappers
  import opened Routes
  import opened TrieRouter

  /** `RouterGroup`: a prefix, its middlewares, its parent and its engine. */
  class RouterGroup<H, F> {
    const prefix: string
    var middlewares: seq<H>
    const parent: RouterGroup?<H, F>
    const engine: Engine<H, F>

    constructor (prefix: string, parent: RouterGroup?<H, F>, engine: Engine<H, F>)
      ensures this.prefix == prefix && this.parent == parent && this.engine == engine
      ensures middlewares == []
    {
      this.prefix := prefix;
      this.parent := parent;
      this.engine := engine;
      middlewares := [];
    }

    /** `Group(prefix)`: a child group whose prefix is this group's prefix
        followed by `prefix`, appended to the engine's groups. */
    method Group(prefix: string) returns (g: RouterGroup<H, F>)
      requires engine.Valid() && this in engine.groups
      modifies engine
      ensures engine.Valid()
      ensures fresh(g) && g.prefix == this.prefix + prefix && g.parent == this && g.engine == engine
      ensures g.middlewares == []
      ensures engine.groups == old(engine.groups) + [g]
      ensures engine.root == old(engine.root) && engine.funcMap == old(engine.funcMap)
    {
      g := new RouterGroup(this.prefix + prefix, this, engine);
      engine.groups := engine.groups + [g];
    }

    /** `Use(middlewares...)`: appends to this group's middlewares only. */
    method Use(added: seq<H>)
      modifies this
      ensures middlewares == old(middlewares) + added
    {
      middlewares := middlewares + added;
    }

    /** `addRoute`: registers the pattern `prefix + comp` with the engine's
        router. */
    method AddRoute(verb: string, comp: string, handler: H)
      requires engine.Valid()
      modifies engine.router
      ensures engine.Valid()
      ensures engine.router.handlers == old(engine.router.handlers)[RouteKey(verb, prefix + comp) := handler]
      ensures var roots := old(engine.router.roots);
        engine.router.roots == roots[verb := (if verb in roots then roots[verb] else {}) + {prefix + comp}]
    {
      engine.router.AddRoute(verb, prefix + comp, handler);
    }

    /** `GET(pattern, handler)`. */
    method Get(comp: string, handler: H)
      requires engine.Valid()
      modifies engine.router
      ensures engine.Valid()
      ensures engine.router.handlers == old(engine.router.handlers)[RouteKey("GET", prefix + comp) := handler]
      ensures var roots := old(engine.router.roots);
        engine.router.roots == roots["GET" := (if "GET" in roots then roots["GET"] else {}) + {prefix + comp}]
    {
      AddRoute("GET", comp, handler);
    }

    /** `POST(pattern, handler)`. */
    method Post(comp: string, handler: H)
      requires engine.Valid()
      modifies engine.router
      ensures engine.Valid()
      ensures engine.router.handlers == old(engine.router.handlers)[RouteKey("POST", prefix + comp) := handler]
      ensures var roots := old(engine.router.roots);
        engine.router.roots == roots["POST" := (if "POST" in roots then roots["POST"] else {}) + {prefix + comp}]
    {
      AddRoute("POST", comp, handler);
    }
  }

  /** The middlewares `ServeHTTP` selects: those of every group whose
      prefix is a prefix of the path, in the order of `groups`. */
  ghost function Selected<H, F>(groups: seq<RouterGroup<H, F>>, path: string): seq<H>
    reads set g | g in groups
    decreases |groups|
  {
    if |groups| == 0 then []
    else
      var last := groups[|groups| - 1];
      Selected(groups[..|groups| - 1], path) + (if last.prefix <= path then last.middlewares else [])
  }

  /** A group whose prefix is `""` matches every path, so a leading root
      group's middlewares always come first. */
  lemma {:induction false} SelectedStartsWithRoot<H, F>(groups: seq<RouterGroup<H, F>>, path: string)
    requires |groups| > 0 && groups[0].prefix == ""
    ensures var s := Selected(groups, path);
      |groups[0].middlewares| <= |s| && s[..|groups[0].middlewares|] == groups[0].middlewares
    decreases |groups|
  {
    if |groups| > 1 {
      var init := groups[..|groups| - 1];
      assert init[0] == groups[0];
      SelectedStartsWithRoot(init, path);
    } else {
      assert groups[..0] == [];
    }
  }

  /** A group contributes nothing when its prefix does not match: with
      only the root matching, the selection is the root's middlewares. */
  lemma {:induction false} SelectedOnlyRoot<H, F>(groups: seq<RouterGroup<H, F>>, path: string)
    requires |groups| > 0 && groups[0].prefix == ""
    requires forall i :: 1 <= i < |groups| ==> !(groups[i].prefix <= path)
    ensures Selected(groups, path) == groups[0].middlewares
    decreases |groups|
  {
    if |groups| > 1 {
      var init := groups[..|groups| - 1];
      assert init[0] == groups[0];
      SelectedOnlyRoot(init, path);
    } else {
      assert groups[..0] == [];
    }
  }

  /** The chain entries for a list of middlewares. */
  function AsLinks<H>(hs: seq<H>): (links: seq<Link<H>>)
    ensures |links| == |hs| && forall i :: 0 <= i < |hs| ==> links[i] == Run(hs[i])
  {
    seq(|hs|, i requires 0 <= i < |hs| => Run(hs[i]))
  }

  /** `Engine`: the embedded root group, the router, every group made so
      far, and the template function map. */
  class Engine<H, F> {
    const router: TrieRouter.Router<H>
    var root: RouterGroup?<H, F>
    var groups: seq<RouterGroup<H, F>>
    var funcMap: map<string, F>

    /** `groups` starts with the root group (prefix `""`, no parent), and
        every group belongs to this engine. */
    ghost predicate Valid()
      reads this, router, set g | g in groups
    {
      && |groups| > 0 && root != null && groups[0] == root && root.prefix == "" && root.parent == null
      && (forall g :: g in groups ==> g.engine == this)
      && router.Valid()
    }

    /** `New`: a fresh router and `groups = [root]`, with an empty root. */
    constructor New()
      ensures Valid() && fresh(router) && fresh(root)
      ensures groups == [root] && root.middlewares == [] && root.engine == this
      ensures router.roots == map[] && router.handlers == map[] && funcMap == map[]
    {
      router := new TrieRouter.Router();
      funcMap := map[];
      root := null;
      groups := [];
      new;
      var g := new RouterGroup("", null, this);
      root := g;
      groups := [g];
    }

    /** `ServeHTTP`: collects the middlewares of every group whose prefix
        starts the path, in group order, puts them in a fresh context that
        also records the engine, and lets the router append the route's
        handler (or the 404 handler). */
    method ServeHTTP(verb: string, path: string, search: seq<string> -> Option<string>) returns (c: Context<H>)
      requires Valid()
      requires verb in router.roots ==> TrieAnswers(search, router.roots[verb])
      ensures fresh(c) && c.verb == verb && c.path == path && c.engine == this
      ensures var chain := AsLinks(Selected(groups, path));
        var found := if verb in router.roots then search(PatternParts(path)) else None;
        && (found.Some? ==>
              && RouteKey(verb, found.value) in router.handlers
              && c.handlers == chain + [Run(router.handlers[RouteKey(verb, found.value)])]
              && c.params == Params(PatternParts(found.value), PatternParts(path)))
        && (found.None? ==> c.handlers == chain + [NotFound] && c.params == map[])
    {
      var middlewares: seq<H> := [];
      var i := 0;
      while i < |groups|
        invariant 0 <= i <= |groups|
        invariant middlewares == Selected(groups[..i], path)
      {
        var group := groups[i];
        assert groups[..i + 1][..i] == groups[..i];
        if group.prefix <= path {
          middlewares := middlewares + group.middlewares;
        }
        i := i + 1;
      }
      assert groups[..i] == groups;
      c := new Context(verb, path);
      c.handlers := AsLinks(middlewares);
      c.engine := this;
      router.HandleChain(c, search);
    }

    /** `SetFuncMap`: stores the map unchanged. */
    method SetFuncMap(m: map<string, F>)
      modifies this
      ensures funcMap == m
      ensures groups == old(groups) && root == old(root)
    {
      funcMap := m;
    }
  }

  /** `Default`: `New` plus one root middleware, the logger. */
  method Default<H, F>(logger: H) returns (e: Engine<H, F>)
    ensures fresh(e) && e.Valid()
    ensures e.groups == [e.root] && e.root.middlewares == [logger] && e.root.engine == e
    ensures e.router.roots == map[] && e.router.handlers == map[] && e.funcMap == map[]
  {
    e := new Engine.New();
    var root := e.root;
    root.Use([logger]);
  }
}

/** The exact-match router of go-web/day2-context/gen/router.go: handlers
    are stored under `method-pattern` and a request is served only when
    its `method-path` is such a key. */
module ExactRouter {
  import opened Routes

  class Router<H> {
    var handlers: map<string, H>

    /** `newRouter`. */
    constructor ()
      ensures handlers == map[]
    {
      handlers := map[];
    }

    /** `addRoute`: stores the handler under the route key; re-adding the
        same method and pattern overwrites it. */
    method AddRoute(verb: string, pattern: string, handler: H)
      modifies this
      ensures handlers == old(handlers)[RouteKey(verb, pattern) := handler]
    {
      handlers := handlers[RouteKey(verb, pattern) := handler];
    }

    /** `handle`: the handler stored under exactly `method-path`, or 404
        with the path. */
    method Handle(verb: string, path: string) returns (d: Dispatch<H>)
      ensures RouteKey(verb, path) in handlers ==> d == Invoke(handlers[RouteKey(verb, path)])
      ensures RouteKey(verb, path) !in handlers ==> d == Respond(StatusNotFound, NotFoundBody(path))
    {
      var key := RouteKey(verb, path);
      if key in handlers {
        return Invoke(handlers[key]);
      }
      return Respond(StatusNotFound, NotFoundBody(path));
    }
  }

  /** A route just registered is served for exactly its method and
      pattern, and for no other method without `-` in its name. */
  method RegisteredIsServed<H>(verb: string, pattern: string, other: string, handler: H)
    returns (served: Dispatch<H>, elsewhere: Dispatch<H>)
    requires '-' !in verb && '-' !in other && other != verb
    ensures served == Invoke(handler)
    ensures elsewhere == Respond(StatusNotFound, NotFoundBody(pattern))
  {
    var r := new Router<H>();
    r.AddRoute(verb, pattern, handler);
    served := r.Handle(verb, pattern);
    if RouteKey(other, pattern) == RouteKey(verb, pattern) {
      RouteKeyInjective(other, pattern, verb, pattern);
    }
    elsewhere := r.Handle(other, pattern);
  }

  /** Dispatch is by exact key only: a request path is not matched against
      a `:name` pattern. */
  method NoPatternMatching<H>(handler: H) returns (d: Dispatch<H>)
    ensures d == Respond(StatusNotFound, NotFoundBody("/hello/geektutu"))
  {
    var r := new Router<H>();
    r.AddRoute("GET", "/hello/:name", handler);
    d := r.Handle("GET", "/hello/geektutu");
  }
}

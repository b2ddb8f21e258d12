/**
 * The LDCP request router: request handlers registered under path prefixes, and a
 * request dispatched to a handler whose prefix starts its path.
 */
module LdcpRouters {
  import opened Wrappers

  /** A request handler, known only by its identity. */
  type Handler = nat

  /** How the Completable returned by handle ends. */
  datatype Completion = Complete | Failed

  /** The response codes of a response message; the router only ever sets ERROR. */
  datatype ResponseCode = Ok | Error

  class Response {
    var code: ResponseCode

    constructor(code: ResponseCode)
      ensures this.code == code
    {
      this.code := code;
    }
  }

  /** What handle did: ran the handler under `path`, found no route, or failed on a null request path. */
  datatype Dispatch = Routed(path: string, completion: Completion) | Unrouted | Thrown

  /** The Completable handle returns. */
  function CompletionOf(d: Dispatch): (c: Completion)
    ensures c == Failed <==> d.Thrown? || (d.Routed? && d.completion == Failed)
  {
    match d
    case Routed(_, c) => c
    case Unrouted => Complete
    case Thrown => Failed
  }

  /** The registered paths that start the request path. */
  function MatchingRoutes(routes: map<string, Handler>, reqPath: string): (m: set<string>)
    ensures m <= routes.Keys
  {
    set p | p in routes && p <= reqPath
  }

  /** `path` is the only registered path that starts the request path. */
  predicate OnlyMatch(routes: map<string, Handler>, reqPath: string, path: string)
  {
    MatchingRoutes(routes, reqPath) == {path}
  }

  /**
   * Registering a handler under `path` adds `path` to the routes matching a request
   * exactly when it starts the request path, and leaves the other matches as they were.
   */
  lemma RegisterMatches(routes: map<string, Handler>, path: string, action: Handler, reqPath: string)
    ensures MatchingRoutes(routes[path := action], reqPath)
         == MatchingRoutes(routes, reqPath) - {path} + (if path <= reqPath then {path} else {})
  {
  }

  class Router {
    var routes: map<string, Handler>

    constructor()
      ensures routes == map[]
    {
      routes := map[];
    }

    /** GET(path, action): the handler replaces any one registered under the same path. */
    method Get(path: string, action: Handler)
      modifies this
      ensures routes == old(routes)[path := action]
    {
      routes := routes[path := action];
    }

    /** POST(path, action): the same registry as GET. */
    method Post(path: string, action: Handler)
      modifies this
      ensures routes == old(routes)[path := action]
    {
      Get(path, action);
    }

    /**
     * handle(req, res): the first registered path found that starts the request
     * path (the order of the search is unspecified) gets the request, and `run`
     * says how that handler's Completable ends; with no such path the response
     * code becomes ERROR and handling completes. A null request path (None) makes
     * the prefix test throw, which becomes a failed Completable, unless there is
     * no route to test.
     */
    method Handle(reqPath: Option<string>, res: Response, run: Handler -> Completion) returns (d: Dispatch)
      modifies res
      ensures d.Thrown? <==> reqPath.None? && routes != map[]
      ensures d.Unrouted? <==> (reqPath.None? && routes == map[]) || (reqPath.Some? && MatchingRoutes(routes, reqPath.value) == {})
      ensures d.Routed? ==> reqPath.Some? && d.path in MatchingRoutes(routes, reqPath.value) && d.completion == run(routes[d.path])
      ensures forall path :: reqPath.Some? && OnlyMatch(routes, reqPath.value, path) ==> d == Routed(path, run(routes[path]))
      ensures res.code == if d.Unrouted? then Error else old(res.code)
    {
      var keys := routes.Keys;
      while keys != {}
        invariant keys <= routes.Keys
        invariant reqPath.None? ==> keys == routes.Keys
        invariant reqPath.Some? ==> forall p :: p in routes && p !in keys ==> !(p <= reqPath.value)
        invariant res.code == old(res.code)
        decreases keys
      {
        var p :| p in keys;
        if reqPath.None? {
          return Thrown;
        }
        if p <= reqPath.value {
          assert p in MatchingRoutes(routes, reqPath.value);
          return Routed(p, run(routes[p]));
        }
        keys := keys - {p};
      }
      if reqPath.Some? {
        assert forall p :: p !in MatchingRoutes(routes, reqPath.value);
      }
      res.code := Error;
      return Unrouted;
    }
  }
}

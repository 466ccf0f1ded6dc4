/** The router of server.go: a table from path to HTTP method to handler, the dispatch
    closure that `initHttpMultiplexer` installs for every path, the ServeMux's choice of
    path pattern, and the response contract of `asHandler` and `wrapError`.
    A handler is kept abstract as a value of type `H`; what it does when it runs is
    interpreted by the caller. */
module Routing {
  import opened Wrappers
  import opened Http

  /** The JSON documents handlers return and the router marshals. */
  datatype Json = JString(s: string) | JObject(members: seq<(string, Json)>)

  /** What a handler returns: a value to marshal, nil with no error, or an error. */
  datatype Outcome = Value(v: Json) | Nil | Error(msg: string)

  /** The body `wrapError` marshals: `{"message": <error text>}`. */
  function Envelope(msg: string): Json {
    JObject([("message", JString(msg))])
  }

  /** `json.Marshal`, which is not part of this model: it gives the bytes or an error. */
  type Marshal = Json -> Result<string>

  type RouteTable<H> = map<string, map<string, H>>

  /** The table after registering `handler` for (`httpMethod`, `path`). */
  function Registered<H>(routes: RouteTable<H>, httpMethod: string, path: string, handler: H): RouteTable<H>
  {
    var methods := if path in routes then routes[path] else map[];
    routes[path := methods[httpMethod := handler]]
  }

  class Router<H> {
    var routes: RouteTable<H>
    /** The patterns registered with the ServeMux. */
    var mux: set<string>

    /** `newRouter`. */
    constructor ()
      ensures routes == map[] && mux == {}
    {
      routes := map[];
      mux := {};
    }

    /** `registerRoute`: creates the method map of a new path, then sets the handler. */
    method RegisterRoute(httpMethod: string, path: string, handler: H)
      modifies this`routes
      ensures routes == Registered(old(routes), httpMethod, path, handler)
    {
      var methods: map<string, H>;
      if path in routes {
        methods := routes[path];
      } else {
        methods := map[];
        routes := routes[path := methods];
      }
      routes := routes[path := methods[httpMethod := handler]];
    }

    /** `initHttpMultiplexer`: one ServeMux pattern per registered path, in any order. */
    method InitHttpMultiplexer()
      requires mux == {}
      modifies this`mux
      ensures mux == routes.Keys
    {
      var pending := routes.Keys;
      while pending != {}
        invariant pending <= routes.Keys
        invariant mux == routes.Keys - pending
        decreases pending
      {
        var path :| path in pending;
        mux := mux + {path};
        pending := pending - {path};
      }
    }

    /** The closure installed for `pattern`: the handler for the request's method is
        selected to run; when there is none the response is 405 with no body. */
    method Dispatch(w: ResponseWriter, pattern: string, httpMethod: string) returns (selected: Option<H>)
      requires pattern in routes
      modifies w`status
      ensures selected.Some? <==> httpMethod in routes[pattern]
      ensures selected.Some? ==> selected.value == routes[pattern][httpMethod]
      ensures selected.Some? ==> w.status == old(w.status) && w.body == old(w.body)
      ensures selected.None? ==> w.status == (if old(w.status).None? then Some(StatusMethodNotAllowed) else old(w.status))
      ensures selected.None? ==> w.body == old(w.body)
    {
      selected := FindHandler(routes[pattern], httpMethod);
      if selected.None? {
        w.WriteHeader(StatusMethodNotAllowed);
      }
    }
  }

  /** The loop of the dispatch closure: it ranges over the method map in no particular
      order and stops at the key equal to the request's method. */
  method FindHandler<H>(methods: map<string, H>, httpMethod: string) returns (found: Option<H>)
    ensures found.Some? <==> httpMethod in methods
    ensures found.Some? ==> found.value == methods[httpMethod]
  {
    var pending := methods.Keys;
    while pending != {}
      invariant pending <= methods.Keys
      invariant httpMethod in methods ==> httpMethod in pending
      decreases pending
    {
      var m :| m in pending;
      if httpMethod == m {
        return Some(methods[m]);
      }
      pending := pending - {m};
    }
    return None;
  }

  /** A ServeMux pattern matches its own path; a pattern ending in '/' also matches
      every path below it. */
  predicate Matches(pattern: string, path: string) {
    pattern == path || (|pattern| > 0 && pattern[|pattern| - 1] == '/' && pattern <= path)
  }

  /** The ServeMux's choice: the longest registered pattern that matches, if any. */
  function SelectPattern(patterns: set<string>, path: string): (r: Option<string>)
    ensures r.Some? ==> r.value in patterns && Matches(r.value, path)
    ensures r.Some? ==> forall q :: q in patterns && Matches(q, path) ==> |q| <= |r.value|
    ensures r.None? ==> forall q :: q in patterns ==> !Matches(q, path)
  {
    LongestMatch(patterns, path, |path|)
  }

  /** The longest matching pattern among the prefixes of `path` of length at most `n`. */
  function LongestMatch(patterns: set<string>, path: string, n: nat): (r: Option<string>)
    requires n <= |path|
    ensures r.Some? ==> r.value in patterns && Matches(r.value, path) && |r.value| <= n
    ensures forall q :: q in patterns && Matches(q, path) && |q| <= n ==> r.Some? && |q| <= |r.value|
    decreases n
  {
    var q := path[..n];
    if q in patterns && Matches(q, path) then Some(q)
    else
      assert forall p :: Matches(p, path) ==> p == path[..|p|];
      if n == 0 then None
      else LongestMatch(patterns, path, n - 1)
  }

  /** The handler a request reaches: the ServeMux picks the path pattern, then the
      dispatch closure picks the handler by method. None when no pattern matches or the
      pattern has no handler for the method. */
  function HandlerFor<H>(routes: RouteTable<H>, path: string, httpMethod: string): Option<H>
  {
    match SelectPattern(routes.Keys, path)
    case None => None
    case Some(p) => if httpMethod in routes[p] then Some(routes[p][httpMethod]) else None
  }

  /** `wrapError`: nothing for a nil error; otherwise status 400 and the marshalled
      envelope. A failure to marshal or to write the envelope panics: the panic value is
      returned. */
  method WrapError(w: ResponseWriter, err: Option<string>, marshal: Marshal) returns (panicked: Option<string>)
    modifies w`status, w`body, w`written
    ensures w.written == old(w.written) +
      if err.Some? && marshal(Envelope(err.value)).Ok? then |marshal(Envelope(err.value)).value| else 0
    ensures err.None? ==> w.status == old(w.status) && w.body == old(w.body) && panicked.None?
    ensures err.Some? ==> w.status == if old(w.status).None? then Some(StatusBadRequest) else old(w.status)
    ensures err.Some? && marshal(Envelope(err.value)).Err? ==>
      panicked == Some(marshal(Envelope(err.value)).msg) && w.body == old(w.body)
    ensures err.Some? && marshal(Envelope(err.value)).Ok? ==>
      panicked == old(WriteError(w.declared, w.written, w.failure, marshal(Envelope(err.value)).value)) &&
      w.body == if panicked.None? then old(w.body) + marshal(Envelope(err.value)).value else old(w.body)
  {
    if err.None? {
      return None;
    }
    w.WriteHeader(StatusBadRequest);
    var out := marshal(Envelope(err.value));
    if out.Err? {
      return Some(out.msg);
    }
    var writeErr := w.Write(out.value);
    if writeErr.Some? {
      return writeErr;
    }
    return None;
  }

  /** `asHandler`, from the point where the wrapped handler has returned `outcome`.
      The deferred `wrapError` is given the handler's error as it was then, so a later
      marshal or write failure reaches nobody. */
  method AsHandler(w: ResponseWriter, outcome: Outcome, marshal: Marshal) returns (panicked: Option<string>)
    modifies w`status, w`body, w`written
    ensures w.written == old(w.written) +
      if outcome.Error? && marshal(Envelope(outcome.msg)).Ok? then |marshal(Envelope(outcome.msg)).value|
      else if outcome.Value? && marshal(outcome.v).Ok? then |marshal(outcome.v).value|
      else 0
    ensures outcome.Nil? ==> w.status == old(w.status) && w.body == old(w.body) && panicked.None?
    ensures outcome.Error? ==> w.status == if old(w.status).None? then Some(StatusBadRequest) else old(w.status)
    ensures outcome.Error? && marshal(Envelope(outcome.msg)).Err? ==>
      panicked == Some(marshal(Envelope(outcome.msg)).msg) && w.body == old(w.body)
    ensures outcome.Error? && marshal(Envelope(outcome.msg)).Ok? ==>
      panicked == old(WriteError(w.declared, w.written, w.failure, marshal(Envelope(outcome.msg)).value)) &&
      w.body == if panicked.None? then old(w.body) + marshal(Envelope(outcome.msg)).value else old(w.body)
    ensures outcome.Value? ==> panicked.None?
    ensures outcome.Value? && marshal(outcome.v).Err? ==> w.status == old(w.status) && w.body == old(w.body)
    ensures outcome.Value? && marshal(outcome.v).Ok? ==>
      w.status == (if old(w.status).None? then Some(StatusOK) else old(w.status)) &&
      w.body == if old(WriteError(w.declared, w.written, w.failure, marshal(outcome.v).value)).None? then old(w.body) + marshal(outcome.v).value else old(w.body)
  {
    var err: Option<string> := if outcome.Error? then Some(outcome.msg) else None;
    var deferredErr := err;
    if outcome.Value? {
      var out := marshal(outcome.v);
      if out.Err? {
        err := Some(out.msg);
      } else {
        w.WriteHeader(StatusOK);
        err := w.Write(out.value);
      }
    }
    panicked := WrapError(w, deferredErr, marshal);
  }

  // ---- Properties of the route table ----

  /** After registering, the pair maps to the new handler, whatever was there before. */
  lemma RegisteredFinds<H>(routes: RouteTable<H>, httpMethod: string, path: string, handler: H)
    ensures path in Registered(routes, httpMethod, path, handler)
    ensures httpMethod in Registered(routes, httpMethod, path, handler)[path]
    ensures Registered(routes, httpMethod, path, handler)[path][httpMethod] == handler
  {
  }

  /** Registration touches nothing else: no path disappears, every other (path, method)
      entry keeps its handler, and no method is added elsewhere. */
  lemma RegisteredFrame<H>(routes: RouteTable<H>, httpMethod: string, path: string, handler: H, p: string, m: string)
    requires p != path || m != httpMethod
    ensures Registered(routes, httpMethod, path, handler).Keys == routes.Keys + {path}
    ensures (p in routes && m in routes[p]) <==>
      (p in Registered(routes, httpMethod, path, handler) && m in Registered(routes, httpMethod, path, handler)[p])
    ensures p in routes && m in routes[p] ==> Registered(routes, httpMethod, path, handler)[p][m] == routes[p][m]
  {
  }

  /** The last registration for a pair wins. */
  lemma RegisteredLastWins<H>(routes: RouteTable<H>, httpMethod: string, path: string, first: H, second: H)
    ensures Registered(Registered(routes, httpMethod, path, first), httpMethod, path, second)
         == Registered(routes, httpMethod, path, second)
  {
    var once := Registered(routes, httpMethod, path, first);
    assert once[path][httpMethod := second] == (if path in routes then routes[path] else map[])[httpMethod := second];
  }

  /** Registrations of different pairs can come in either order. */
  lemma RegisteredCommute<H>(routes: RouteTable<H>, m1: string, p1: string, h1: H, m2: string, p2: string, h2: H)
    requires m1 != m2 || p1 != p2
    ensures Registered(Registered(routes, m1, p1, h1), m2, p2, h2)
         == Registered(Registered(routes, m2, p2, h2), m1, p1, h1)
  {
    var a := Registered(Registered(routes, m1, p1, h1), m2, p2, h2);
    var b := Registered(Registered(routes, m2, p2, h2), m1, p1, h1);
    assert a.Keys == b.Keys;
    forall p | p in a.Keys
      ensures a[p] == b[p]
    {
      var base := if p in routes then routes[p] else map[];
      if p == p1 && p == p2 {
        assert a[p] == base[m1 := h1][m2 := h2];
        assert b[p] == base[m2 := h2][m1 := h1];
      }
    }
  }
}

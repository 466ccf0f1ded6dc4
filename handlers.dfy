/** The program that main() in server.go assembles: a router with three handlers over the
    secret store. The handler closures are represented by the tags of `HandlerKind`;
    `Server.ServeHTTP` runs the one a request reaches and then applies `asHandler`. */
module Handlers {
  import opened Wrappers
  import opened Http
  import opened Routing
  import opened SecretStore
  import Hex
  import UrlPath

  /** The three closures registered in main(). */
  datatype HandlerKind = ServeFiles | ShowSecret | StoreSecret

  /** The 8-byte array the POST handler fills from `crypto/rand`. */
  type Block = b: seq<Hex.byte> | |b| == 8 witness [0, 0, 0, 0, 0, 0, 0, 0]

  /** Everything the handlers get from code outside this model: transport faults of the
      three store calls, the template (parse error, and rendering of a ciphertext), JSON
      decoding of the POST body into its `cipherText` field, the random source,
      `json.Marshal`, and what `http.ServeFile` answers (status and body). */
  datatype Env = Env(
    getFault: Option<string>,
    putFault: Option<string>,
    deleteFault: Option<string>,
    parseTemplate: Option<string>,
    render: string -> Result<string>,
    unmarshal: string -> Result<string>,
    random: Result<Block>,
    marshal: Marshal,
    staticFile: (int, string))

  /** `StoreResponse{ID: key}`, marshalled as `{"id": key}`. */
  function StoreResponse(key: string): Json {
    JObject([("id", JString(key))])
  }

  /** The bytes a connection delivers of `data`: all of them, or none when it fails. */
  function Delivered(failure: Option<string>, data: string): string {
    if failure.None? then data else ""
  }

  /** The marshalled error envelope, or nothing when marshalling it fails (a panic). */
  function EnvelopeBytes(marshal: Marshal, msg: string): string {
    var out := marshal(Envelope(msg));
    if out.Ok? then out.value else ""
  }

  /** The route table main() builds. */
  function MainRoutes(): RouteTable<HandlerKind> {
    map["/" := map[MethodGet := ServeFiles, MethodPost := StoreSecret],
        "/l/" := map[MethodGet := ShowSecret]]
  }

  /** What the read handler has reached just before it serves the page: the rendered page
      for the secret stored under `id`, or the error of the step that stopped it
      (GET, template parsing, template execution, in that order). */
  function ShowPage(t: Table, now: int, id: string, env: Env): Result<string> {
    var got := if env.getFault.Some? then Err(env.getFault.value) else Lookup(t, now, id);
    if got.Err? then got
    else if env.parseTemplate.Some? then Err(env.parseTemplate.value)
    else env.render(got.value)
  }

  /** What the store handler has reached just before `Put`: the key and the ciphertext,
      or the error of the step that stopped it (reading the body, decoding it, the
      random source, in that order). */
  function StorePlan(req: Request, env: Env): Result<(string, string)> {
    if req.body.Err? then Err(req.body.msg)
    else
      match env.unmarshal(req.body.value)
      case Err(e) => Err(e)
      case Ok(cipherText) =>
        match env.random
        case Err(e) => Err(e)
        case Ok(bytes) => Ok((Hex.EncodeToString(bytes), cipherText))
  }

  /** What the read handler did for `id`, between the state before it ran and now: any
      `Get`, parse or render error is returned with store and response untouched;
      otherwise `http.ServeContent` declares the page's length (if no header went out
      yet), sends 200 and writes the page, and then the id is deleted, or the `Delete`
      error is returned and the entry kept. */
  twostate predicate ShowStep(store: Store, w: ResponseWriter, id: string, env: Env, outcome: Outcome)
    reads store, w
  {
    var page := ShowPage(old(store.table), store.now, id, env);
    (page.Err? ==>
      outcome == Error(page.msg) && store.table == old(store.table) &&
      w.status == old(w.status) && w.body == old(w.body) &&
      w.declared == old(w.declared) && w.written == old(w.written)) &&
    (page.Ok? ==>
      var declared := if old(w.status).None? then Some(|page.value|) else old(w.declared);
      var err := WriteError(declared, old(w.written), w.failure, page.value);
      w.status == (if old(w.status).None? then Some(StatusOK) else old(w.status)) &&
      w.declared == declared && w.written == old(w.written) + |page.value| &&
      w.body == old(w.body) + (if err.None? then page.value else "")) &&
    (page.Ok? && env.deleteFault.None? ==> outcome == Nil && store.table == Del(old(store.table), id)) &&
    (page.Ok? && env.deleteFault.Some? ==> outcome == Error(env.deleteFault.value) && store.table == old(store.table))
  }

  /** The read handler (GET /l/): the id from the path, then `ShowById`. */
  method HandleShow(store: Store, w: ResponseWriter, req: Request, env: Env) returns (outcome: Outcome)
    modifies store`table, w
    ensures ShowStep(store, w, UrlPath.ExtractId(req.path), env, outcome)
  {
    var id := UrlPath.ExtractId(req.path);
    outcome := ShowById(store, w, id, env);
  }

  /** The read handler once it has the id: `Get`, parse, render, serve, `Delete`. */
  method ShowById(store: Store, w: ResponseWriter, id: string, env: Env) returns (outcome: Outcome)
    modifies store`table, w
    ensures ShowStep(store, w, id, env, outcome)
  {
    ghost var page := ShowPage(store.table, store.now, id, env);
    var res := store.Get(id, env.getFault);
    assert res == if env.getFault.Some? then Err(env.getFault.value) else Lookup(store.table, store.now, id);
    if res.Err? {
      return Error(res.msg);
    }
    if env.parseTemplate.Some? {
      return Error(env.parseTemplate.value);
    }
    var out := env.render(res.value);
    assert out == page;
    if out.Err? {
      return Error(out.msg);
    }
    // http.ServeContent: Content-Length, header 200, then the page; its write error is
    // not reported.
    w.DeclareLength(|out.value|);
    w.WriteHeader(StatusOK);
    var _ := w.Write(out.value);
    var err := store.Delete(id, env.deleteFault);
    if err.Some? {
      return Error(err.value);
    }
    return Nil;
  }

  /** The store handler (POST /): read and decode the body, draw 8 random bytes, `Put`
      under their hex encoding, answer with the key. */
  method HandleStore(store: Store, req: Request, env: Env) returns (outcome: Outcome)
    modifies store`table
    ensures StorePlan(req, env).Err? ==>
      outcome == Error(StorePlan(req, env).msg) && store.table == old(store.table)
    ensures StorePlan(req, env).Ok? && env.putFault.Some? ==>
      outcome == Error(env.putFault.value) && store.table == old(store.table)
    ensures StorePlan(req, env).Ok? && env.putFault.None? ==>
      outcome == Value(StoreResponse(StorePlan(req, env).value.0)) &&
      store.table == Set(old(store.table), store.now, StorePlan(req, env).value.0, StorePlan(req, env).value.1)
  {
    if req.body.Err? {
      return Error(req.body.msg);
    }
    var decoded := env.unmarshal(req.body.value);
    if decoded.Err? {
      return Error(decoded.msg);
    }
    if env.random.Err? {
      return Error(env.random.msg);
    }
    var key := Hex.EncodeToString(env.random.value);
    var err := store.Put(key, decoded.value, env.putFault);
    if err.Some? {
      return Error(err.value);
    }
    return Value(StoreResponse(key));
  }

  /** The static handler (GET /): `http.ServeFile` writes its answer; the handler
      returns nil. */
  method HandleStatic(w: ResponseWriter, env: Env) returns (outcome: Outcome)
    modifies w
    ensures outcome == Nil
    ensures w.status == if old(w.status).None? then Some(env.staticFile.0) else old(w.status)
    ensures w.declared == old(w.declared) && w.written == old(w.written) + |env.staticFile.1|
    ensures w.body == old(w.body) +
      if WriteError(old(w.declared), old(w.written), w.failure, env.staticFile.1).None? then env.staticFile.1 else ""
  {
    w.WriteHeader(env.staticFile.0);
    var _ := w.Write(env.staticFile.1);
    return Nil;
  }

  class Server {
    const router: Router<HandlerKind>
    const store: Store

    ghost predicate Valid()
      reads this, router
    {
      router.routes == MainRoutes() && router.mux == router.routes.Keys
    }

    /** main(): the router with its three routes, the store, the ServeMux. */
    constructor (start: nat)
      ensures Valid() && fresh(router) && fresh(store)
      ensures store.table == map[] && store.now == start
    {
      var r := new Router<HandlerKind>();
      r.RegisterRoute(MethodGet, "/", ServeFiles);
      r.RegisterRoute(MethodGet, "/l/", ShowSecret);
      r.RegisterRoute(MethodPost, "/", StoreSecret);
      assert r.routes == MainRoutes();
      r.InitHttpMultiplexer();
      router := r;
      store := new Store(start);
    }

    /** One request on a fresh response writer: the ServeMux picks the pattern (404 when
        none matches), the dispatch closure picks the handler (405 when none) and runs it.
        Returns which handler ran and the value of a panic, if any. */
    method ServeHTTP(w: ResponseWriter, req: Request, env: Env) returns (ran: Option<HandlerKind>, panicked: Option<string>)
      requires Valid()
      requires w.Untouched()
      modifies w, store`table
      ensures ran == HandlerFor(MainRoutes(), req.path, req.httpMethod)
      ensures ran.None? ==> store.table == old(store.table) && panicked.None?
      ensures SelectPattern(MainRoutes().Keys, req.path).None? ==>
        w.status == Some(StatusNotFound) && w.body == Delivered(w.failure, NotFoundText)
      ensures SelectPattern(MainRoutes().Keys, req.path).Some? && ran.None? ==>
        w.status == Some(StatusMethodNotAllowed) && w.body == []
      ensures ran == Some(ServeFiles) ==> StaticServed(w, env, panicked) && store.table == old(store.table)
      ensures ran == Some(ShowSecret) ==> ShowServed(old(store.table), store.table, store.now, w, req, env, panicked)
      ensures ran == Some(StoreSecret) ==> StoreServed(old(store.table), store.table, store.now, w, req, env, panicked)
    {
      panicked := None;
      var pattern := SelectPattern(router.mux, req.path);
      if pattern.None? {
        NotFound(w);
        return None, None;
      }
      ran := router.Dispatch(w, pattern.value, req.httpMethod);
      if ran.None? {
        return;
      }
      assert w.Untouched();
      match ran.value {
        case ServeFiles =>
          panicked := RunStatic(w, env);
        case ShowSecret =>
          panicked := RunShow(store, w, req, env);
        case StoreSecret =>
          panicked := RunStore(store, w, req, env);
      }
    }
  }

  /** `http.NotFound`: status 404 and its fixed text. */
  method NotFound(w: ResponseWriter)
    requires w.Untouched()
    modifies w
    ensures w.status == Some(StatusNotFound) && w.body == Delivered(w.failure, NotFoundText)
  {
    w.WriteHeader(StatusNotFound);
    var _ := w.Write(NotFoundText);
  }

  const NotFoundText: string := "404 page not found\n"

  /** The response of the static route on a fresh writer. */
  ghost predicate StaticServed(w: ResponseWriter, env: Env, panicked: Option<string>)
    reads w
  {
    panicked.None? && w.status == Some(env.staticFile.0) && w.body == Delivered(w.failure, env.staticFile.1)
  }

  /** The panic value of the deferred `wrapError` for `msg`: the marshal error, or what
      writing the envelope returns when it is not empty, given the error such a write
      meets. */
  function WrapPanic(marshal: Marshal, msg: string, writeErr: Option<string>): Option<string> {
    match marshal(Envelope(msg))
    case Err(e) => Some(e)
    case Ok(bytes) => if |bytes| == 0 then None else writeErr
  }

  /** The response and store change of the read route on a fresh writer: 400 and the
      envelope if it stopped before serving; otherwise 200 and the page, then the secret is
      deleted. If `Delete` failed, the secret is kept and the envelope cannot follow the
      page: it would pass the Content-Length that `ServeContent` declared, so the write
      fails and `wrapError` panics. */
  ghost predicate ShowServed(before: Table, after: Table, now: int, w: ResponseWriter, req: Request, env: Env, panicked: Option<string>)
    reads w
  {
    var id := UrlPath.ExtractId(req.path);
    var page := ShowPage(before, now, id, env);
    (page.Err? ==> after == before) &&
    (page.Ok? && env.deleteFault.None? ==> after == Del(before, id)) &&
    (page.Ok? && env.deleteFault.Some? ==> after == before) &&
    ShowAnswered(page, env, w, panicked)
  }

  /** The response part of `ShowServed`, given where the read handler got to. */
  ghost predicate ShowAnswered(page: Result<string>, env: Env, w: ResponseWriter, panicked: Option<string>)
    reads w
  {
    (page.Err? ==>
      w.status == Some(StatusBadRequest) &&
      w.body == Delivered(w.failure, EnvelopeBytes(env.marshal, page.msg)) &&
      panicked == WrapPanic(env.marshal, page.msg, w.failure)) &&
    (page.Ok? && env.deleteFault.None? ==>
      panicked.None? && w.status == Some(StatusOK) && w.body == Delivered(w.failure, page.value)) &&
    (page.Ok? && env.deleteFault.Some? ==>
      w.status == Some(StatusOK) && w.body == Delivered(w.failure, page.value) &&
      panicked == WrapPanic(env.marshal, env.deleteFault.value, Some(ErrContentLength)))
  }

  /** The response and store change of the store route on a fresh writer: 400 and the
      envelope if any step failed; otherwise the entry is stored and, when the answer
      marshals, 200 and `{"id": key}`, else nothing at all is written. */
  ghost predicate StoreServed(before: Table, after: Table, now: int, w: ResponseWriter, req: Request, env: Env, panicked: Option<string>)
    reads w
  {
    var plan := StorePlan(req, env);
    var failed := if plan.Err? then Some(plan.msg) else env.putFault;
    (failed.Some? ==>
      after == before && w.status == Some(StatusBadRequest) &&
      w.body == Delivered(w.failure, EnvelopeBytes(env.marshal, failed.value)) &&
      panicked == WrapPanic(env.marshal, failed.value, w.failure)) &&
    (failed.None? ==>
      after == Set(before, now, plan.value.0, plan.value.1) && panicked.None? &&
      var answer := env.marshal(StoreResponse(plan.value.0));
      (answer.Ok? ==> w.status == Some(StatusOK) && w.body == Delivered(w.failure, answer.value)) &&
      (answer.Err? ==> w.status == None && w.body == []))
  }

  /** `asHandler` around the static handler. */
  method RunStatic(w: ResponseWriter, env: Env) returns (panicked: Option<string>)
    requires w.Untouched()
    modifies w
    ensures StaticServed(w, env, panicked)
  {
    var outcome := HandleStatic(w, env);
    panicked := AsHandler(w, outcome, env.marshal);
  }

  /** `asHandler` around the read handler. */
  method RunShow(store: Store, w: ResponseWriter, req: Request, env: Env) returns (panicked: Option<string>)
    requires w.Untouched()
    modifies store`table, w
    ensures ShowServed(old(store.table), store.table, store.now, w, req, env, panicked)
  {
    ghost var page := ShowPage(store.table, store.now, UrlPath.ExtractId(req.path), env);
    var outcome := ShowOnFreshWriter(store, w, req, env);
    panicked := AnswerShow(w, outcome, env, page);
  }

  /** The read handler on a writer nothing was written to: it leaves either nothing
      written or exactly the page, with its length declared and counted. */
  method ShowOnFreshWriter(store: Store, w: ResponseWriter, req: Request, env: Env) returns (outcome: Outcome)
    requires w.Untouched()
    modifies store`table, w
    ensures var id := UrlPath.ExtractId(req.path);
      var page := ShowPage(old(store.table), store.now, id, env);
      (page.Err? ==> outcome == Error(page.msg) && store.table == old(store.table) && w.Untouched()) &&
      (page.Ok? ==>
        w.status == Some(StatusOK) && w.declared == Some(|page.value|) && w.written == |page.value| &&
        w.body == Delivered(w.failure, page.value) &&
        outcome == (if env.deleteFault.None? then Nil else Error(env.deleteFault.value)) &&
        store.table == if env.deleteFault.None? then Del(old(store.table), id) else old(store.table))
  {
    outcome := HandleShow(store, w, req, env);
  }

  /** The deferred `wrapError` of `asHandler` once the read handler has returned, from
      the state its steps leave behind. */
  method AnswerShow(w: ResponseWriter, outcome: Outcome, env: Env, ghost page: Result<string>) returns (panicked: Option<string>)
    requires page.Err? ==> outcome == Error(page.msg) && w.Untouched()
    requires page.Ok? ==>
      w.status == Some(StatusOK) && w.declared == Some(|page.value|) && w.written == |page.value| &&
      w.body == Delivered(w.failure, page.value)
    requires page.Ok? ==> outcome == if env.deleteFault.None? then Nil else Error(env.deleteFault.value)
    modifies w
    ensures ShowAnswered(page, env, w, panicked)
  {
    panicked := AsHandler(w, outcome, env.marshal);
  }

  /** `asHandler` around the store handler. */
  method RunStore(store: Store, w: ResponseWriter, req: Request, env: Env) returns (panicked: Option<string>)
    requires w.Untouched()
    modifies store`table, w
    ensures StoreServed(old(store.table), store.table, store.now, w, req, env, panicked)
  {
    var outcome := HandleStore(store, req, env);
    panicked := AsHandler(w, outcome, env.marshal);
  }

  // ---- Properties ----

  /** The routing main() sets up: under /l/ only GET is served (by the read handler);
      everywhere else GET serves files and POST stores a secret; any other method is
      refused with 405. */
  lemma MainRouting(path: string, httpMethod: string)
    requires |path| > 0 && path[0] == '/'
    ensures "/l/" <= path ==>
      HandlerFor(MainRoutes(), path, httpMethod) == if httpMethod == MethodGet then Some(ShowSecret) else None
    ensures !("/l/" <= path) ==>
      HandlerFor(MainRoutes(), path, httpMethod) ==
        if httpMethod == MethodGet then Some(ServeFiles)
        else if httpMethod == MethodPost then Some(StoreSecret)
        else None
  {
    var patterns := MainRoutes().Keys;
    assert patterns == {"/", "/l/"};
    assert Matches("/", path) by { assert "/" == path[..1]; }
    var p := SelectPattern(patterns, path);
    if "/l/" <= path {
      assert Matches("/l/", path);
      assert p == Some("/l/");
    } else {
      assert !Matches("/l/", path);
      assert p == Some("/");
    }
  }

  /** The key is 16 lowercase hex digits, and two different random draws never give the
      same key. */
  lemma StoreKeyShape(req: Request, env: Env, other: Block)
    requires StorePlan(req, env).Ok?
    ensures |StorePlan(req, env).value.0| == 16 && Hex.IsLowerHex(StorePlan(req, env).value.0)
    ensures other != env.random.value ==> Hex.EncodeToString(other) != StorePlan(req, env).value.0
  {
    if Hex.EncodeToString(other) == Hex.EncodeToString(env.random.value) {
      Hex.EncodeInjective(other, env.random.value);
    }
  }

  /** The read handler only produces a page, and so only reaches `Delete`, for a secret
      that is live under the link's id; the page is rendered from exactly its value. */
  lemma ShowPageNeedsLiveSecret(t: Table, now: int, id: string, env: Env)
    requires ShowPage(t, now, id, env).Ok?
    ensures Live(t, now, id) && env.getFault.None? && env.parseTemplate.None?
    ensures env.render(t[id].value) == ShowPage(t, now, id, env)
  {
  }

  /** Once a read's `Delete` has succeeded, the next read of the same link fails before it
      renders anything. */
  lemma SecondReadFails(t: Table, now: int, later: int, id: string, env: Env, env2: Env)
    requires env2.getFault.None?
    ensures ShowPage(Del(t, id), later, id, env2) == Err(NilReply)
  {
  }

  /** A share link made from a stored key and a hex password leads the read handler to
      that key. */
  lemma LinkFindsKey(key: string, pass: string)
    requires |key| > 0 && Hex.IsLowerHex(key) && Hex.IsLowerHex(pass)
    ensures UrlPath.ExtractId("/l/" + key + "/" + pass) == key
  {
    assert key[0] in Hex.Alphabet;
    assert key != "." && key != "..";
    assert '/' !in key;
    assert '/' !in pass;
    UrlPath.ExtractIdOfLink(key, pass);
  }


  // ---- End to end ----

  /** A POST of `body` to "/": the secret is stored under the hex of the random bytes,
      and the client receives status 200, with `{"id": key}` as the body when that
      answer marshals and with no body otherwise. */
  method PostSecret(server: Server, body: string, env: Env) returns (key: string, posted: int, answer: string)
    requires server.Valid()
    requires env.putFault.None? && env.unmarshal(body).Ok? && env.random.Ok?
    modifies server.store`table
    ensures key == Hex.EncodeToString(env.random.value)
    ensures server.store.table == Set(old(server.store.table), server.store.now, key, env.unmarshal(body).value)
    ensures posted == StatusOK
    ensures answer == if env.marshal(StoreResponse(key)).Ok? then env.marshal(StoreResponse(key)).value else ""
  {
    key := Hex.EncodeToString(env.random.value);
    var w := new ResponseWriter(None);
    MainRouting("/", MethodPost);
    var post := Request(MethodPost, "/", Ok(body));
    assert StorePlan(post, env) == Ok((key, env.unmarshal(body).value));
    var ran, panicked := server.ServeHTTP(w, post, env);
    assert ran == Some(StoreSecret);
    assert StoreServed(old(server.store.table), server.store.table, server.store.now, w, post, env, panicked);
    assert w.status == if env.marshal(StoreResponse(key)).Ok? then Some(StatusOK) else None;
    posted, answer := SentStatus(w.status), w.body;
  }

  /** A GET of the share link for `key`: a live secret is served with 200 and deleted;
      for a key with no live secret the answer is 400 with the not-found envelope. */
  method ReadLink(server: Server, key: string, pass: string, env: Env) returns (status: Option<int>, page: string)
    requires server.Valid()
    requires |key| > 0 && Hex.IsLowerHex(key) && Hex.IsLowerHex(pass)
    requires env.getFault.None? && env.deleteFault.None? && env.parseTemplate.None?
    modifies server.store`table
    ensures Live(old(server.store.table), server.store.now, key) && env.render(old(server.store.table)[key].value).Ok? ==>
      status == Some(StatusOK) && page == env.render(old(server.store.table)[key].value).value &&
      server.store.table == Del(old(server.store.table), key)
    ensures !Live(old(server.store.table), server.store.now, key) ==>
      status == Some(StatusBadRequest) && page == EnvelopeBytes(env.marshal, NilReply) &&
      server.store.table == old(server.store.table)
  {
    var link := "/l/" + key + "/" + pass;
    assert link[..3] == "/l/";
    LinkFindsKey(key, pass);
    MainRouting(link, MethodGet);
    var read := Request(MethodGet, link, Ok(""));
    assert UrlPath.ExtractId(read.path) == key;
    ghost var shown := ShowPage(server.store.table, server.store.now, key, env);
    assert Live(server.store.table, server.store.now, key) ==>
      shown == env.render(server.store.table[key].value);
    assert !Live(server.store.table, server.store.now, key) ==> shown == Err(NilReply);
    var w := new ResponseWriter(None);
    var ran, panicked := server.ServeHTTP(w, read, env);
    assert ran == Some(ShowSecret);
    assert ShowServed(old(server.store.table), server.store.table, server.store.now, w, read, env, panicked);
    status, page := w.status, w.body;
  }

  /** End to end: POST a secret, then open its share link twice. The first read serves
      the rendered page with 200; the second gets 400 and the not-found envelope. */
  method ShareThenReadTwice(body: string, pass: string, env: Env)
    returns (key: string, posted: int, first: Option<int>, firstPage: string,
             second: Option<int>, secondPage: string)
    requires env.getFault.None? && env.putFault.None? && env.deleteFault.None? && env.parseTemplate.None?
    requires env.unmarshal(body).Ok? && env.random.Ok?
    requires env.render(env.unmarshal(body).value).Ok?
    requires Hex.IsLowerHex(pass)
    ensures |key| == 16 && Hex.IsLowerHex(key) && key == Hex.EncodeToString(env.random.value)
    ensures posted == StatusOK
    ensures first == Some(StatusOK) && firstPage == env.render(env.unmarshal(body).value).value
    ensures second == Some(StatusBadRequest) && secondPage == EnvelopeBytes(env.marshal, NilReply)
  {
    var server := new Server(0);
    var answer;
    key, posted, answer := PostSecret(server, body, env);
    DefaultTTLIs72Hours();
    assert Live(server.store.table, 0, key);
    first, firstPage := ReadLink(server, key, pass, env);
    second, secondPage := ReadLink(server, key, pass, env);
  }
}

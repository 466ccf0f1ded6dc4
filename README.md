# shareonce — a verified model of the router and the secret store

shareonce is a burn-after-reading service: a browser encrypts a text, POSTs the
ciphertext to `/`, and gets back a random 16-digit hex id; the share link
`/l/<id>/<password>` can be opened once, after which the ciphertext is deleted,
and an unread secret expires after 72 hours.

This project models, in Dafny, the two parts of `server.go` and `storage.go`
that carry the design:

* **The router** (`router.dfy`, `http.dfy`). A table `path → method → handler`
  that `registerRoute` fills (last registration wins); the ServeMux's choice of
  the longest matching path pattern; the dispatch closure that runs the handler
  registered for the request's method or answers 405; and the response contract
  of `asHandler`/`wrapError` (error → 400 with `{"message": …}`, nil → nothing
  written, value → 200 and its JSON), including the Go detail that the deferred
  `wrapError` sees the handler's error only, so a later marshal or write failure
  is dropped. The response writer is a class with an optional status (only the
  first `WriteHeader` counts; a `Write` first sends 200), a body, the
  `Content-Length` declared before the header went out, and the count of bytes
  written, so that a write past the declared length fails as net/http's does.
* **The handlers** (`handlers.dfy`, `hex.dfy`, `urlpath.dfy`). The three
  closures main() registers, run by `Server.ServeHTTP`: the read handler
  (`Get`, template, serve, then `Delete`), the store handler (decode the body,
  8 random bytes, `hex.EncodeToString`, `Put`), and the static one. The id is
  taken from the link with `path.Split`/`path.Clean`; the key is lowercase
  Base16 (section 8 of RFC 4648).
* **The store** (`store.dfy`). The Redis client becomes a table from key to
  (value, expiry) and a clock; `Put` is `SET key value EX 72h`, `Get` is `GET`
  (a live value, or the error `redis: nil`), `Delete` is `DEL`. Histories of
  operations give read-once and expiry a precise meaning.

Where the code's behaviour is worth noting, the model follows the code:

* The read route is registered as `/l/` and the id is the next-to-last element
  of the path, so a link must be `/l/<id>/<one slash-free element>` (with more
  elements, as in `/l/<id>/x/y`, the key looked up is `x`); `/l/<id>` alone looks up
  the key `"l"` (`UrlPath.ExtractIdWithoutPass`), which never exists.
* POST is accepted on every path outside `/l/` (the `/` pattern is a subtree
  pattern), and POST under `/l/` gets 405 (`Handlers.MainRouting`).
* When `Delete` fails after the page was served, the secret is kept, and the
  response holds status 200 and the page alone: `http.ServeContent` declared
  the page's `Content-Length`, so the deferred `wrapError`'s write of the error
  envelope fails with `http: wrote more than the declared Content-Length`, and
  `wrapError` panics (`Handlers.AnswerShow`). net/http then aborts the
  connection, so the client may not receive even that.
* Not only a failure to marshal the error envelope panics: a failure to write
  it does too (`Routing.WrapError`).

Library and environment behaviour that the code only calls (JSON, templates,
`crypto/rand`, `http.ServeFile`, the network to Redis) is passed in as inputs,
in `Handlers.Env` and the `fault` arguments of the store.

## Model

| member | source | states |
|---|---|---|
| `Routing.Router.constructor` | server.go:109-114 | `newRouter`: an empty route table and an empty ServeMux |
| `Routing.Router.RegisterRoute` | server.go:116-124 | the new table is the old one with `routes[path][method]` set to the handler, creating the path's method map if needed |
| `Routing.RegisteredFinds` | server.go:116-124 | after registering, the (path, method) pair maps to the new handler, whatever was there before |
| `Routing.RegisteredFrame` | server.go:116-124 | registering adds only `path` to the paths, removes none, and every other (path, method) entry keeps its presence and handler |
| `Routing.RegisteredLastWins` | server.go:116-124 | registering the same pair twice equals registering only the second handler |
| `Routing.RegisteredCommute` | server.go:116-124 | registrations of different pairs give the same table in either order |
| `Routing.Router.InitHttpMultiplexer` | server.go:126-140 | the loop over the routes registers exactly one ServeMux pattern per registered path |
| `Routing.FindHandler` | server.go:130-136 | the loop over the method map, in any order, finds a handler iff the request's method is a key, and then exactly that key's handler |
| `Routing.Router.Dispatch` | server.go:129-138 | the handler for the request's method is selected and nothing is written; with no such method the status becomes 405 and no body is written |
| `Routing.SelectPattern` | server.go:129 | the pattern chosen for a path is a registered pattern that matches it (equal, or a '/'-terminated prefix) and no matching pattern is longer; none only when no pattern matches |
| `Routing.WrapError` | server.go:166-184 | nil error: nothing written, no panic; error: status 400 (unless a status was already sent), then the marshalled `{"message": text}`; a marshal or write failure becomes a panic with that error; the byte count grows by the envelope's length and the declared length is untouched |
| `Routing.AsHandler` | server.go:142-164 | handler error: the `wrapError` response; nil result: nothing written; value: 200 and exactly its JSON, and when marshalling or writing it fails no 400 is written and nothing panics; the byte count grows by exactly what was written and the declared length is untouched |
| `Http.ResponseWriter.WriteHeader` | server.go:158 | only the first status written counts |
| `Http.ResponseWriter.DeclareLength` | server.go:62 | the `Content-Length` that `ServeContent` sets takes effect only while no header has been written |
| `Http.ResponseWriter.Write` | server.go:158-160 | a write without a status first sends 200; empty data is no error; the bytes are counted, and once the count passes the declared `Content-Length` the write fails with `http: wrote more than the declared Content-Length` and delivers nothing; otherwise the bytes are appended, or on a failing connection dropped with the connection's error |
| `Hex.EncodeToString` | server.go:93 | the key has two characters per byte, all from `0-9a-f` |
| `Hex.DecodeEncode` | server.go:87-93 | decoding the key gives back the 8 bytes (Base16 round trip) |
| `Hex.EncodeDecode` | server.go:93 | every even-length lowercase hex string is the encoding of the bytes it decodes to |
| `Hex.EncodeInjective` | server.go:87-93 | distinct byte arrays give distinct keys |
| `UrlPath.LastSlash` | server.go:43 | the index found is a '/' and no '/' follows it, or -1 when the path has none |
| `UrlPath.Split` | server.go:43-44 | `path.Split` gives (dir, file) with dir + file = path, no '/' in file, dir empty or ending in '/' |
| `UrlPath.JoinSegments` | server.go:44 | joining the '/'-separated elements of a path with '/' rebuilds the path |
| `UrlPath.Segments` | server.go:44 | the elements of a path contain no '/' and there is at least one |
| `UrlPath.CleanDir1` | server.go:44 | `path.Clean` of a rooted directory `/a/` with a plain element is `/a` |
| `UrlPath.CleanDir2` | server.go:44 | `path.Clean` of a rooted directory `/a/b/` with plain elements is `/a/b` |
| `UrlPath.CleanBareLinkDir` | server.go:44 | `path.Clean` of the bare link directory `/l/` is `/l` |
| `UrlPath.CleanLinkDir` | server.go:44 | `path.Clean` of the link directory `/l/<id>/` is `/l/<id>` |
| `UrlPath.ExtractId` | server.go:43-44 | the extracted id never contains '/' |
| `UrlPath.ExtractIdOfLink` | server.go:43-44 | for `/l/<id>/<pass>` with a plain id element and a slash-free password, the extracted id is `id` |
| `UrlPath.ExtractIdWithoutPass` | server.go:43-44 | for `/l/<id>` without a password element the handler looks up the key "l" |
| `SecretStore.Store.constructor` | storage.go:16-22 | a store with no entries, its clock at the given time |
| `SecretStore.Store.Put` | storage.go:24-29 | on success the entry for `key` becomes (value, now + 72 h) whatever was there, and no other entry changes; the Set error is returned unchanged and then nothing changes |
| `SecretStore.Store.Get` | storage.go:31-33 | returns a value iff the server is reachable and the key is live, and then exactly the stored value; otherwise the transport error or `redis: nil`; the store is not changed |
| `SecretStore.Store.Delete` | storage.go:35-37 | on success the key is absent afterwards and nothing else changed, and an absent key is no error |
| `SecretStore.Store.Advance` | storage.go:25 | the clock moves forward by the given duration and no entry changes |
| `SecretStore.DefaultTTLIs72Hours` | storage.go:14 | `defaultTTL` is 3 × 24 h = 72 h = 259200 s |
| `SecretStore.PutThenGet` | storage.go:24-33 | after a `Put`, `Get` returns exactly the value up to and including now + 72 h and `redis: nil` once the clock is past it |
| `SecretStore.PutOverwrites` | storage.go:24-29 | a second `Put` to the same key replaces the first entirely |
| `SecretStore.DeleteThenGet` | storage.go:35-37 | after `Delete`, `Get` fails; deleting twice equals deleting once |
| `SecretStore.OtherKeysUnchanged` | storage.go:24-37 | `Put` and `Delete` keep every other key's presence, value and expiry |
| `SecretStore.AbsenceIndistinguishable` | storage.go:31-33 | a key never written, one deleted and one expired give the same `Get` answer |
| `SecretStore.RunAppend` | storage.go:24-37 | running two histories in turn equals running their concatenation |
| `SecretStore.NoPutKeepsAbsent` | storage.go:24-37 | a history without a `Put` of a key never creates it: an absent key stays absent |
| `SecretStore.ReadOnce` | storage.go:31-37 | after `Get` then `Delete` of a live key, every later `Get` of it fails, whatever other operations and time pass, unless the key is put again |
| `SecretStore.ExpiresAfterTTL` | storage.go:24-33 | a secret put at t and never put again cannot be read at any time after t + 72 h |
| `SecretStore.VisibleUntilExpiry` | storage.go:24-33 | a secret neither overwritten nor deleted reads back unchanged up to and including t + 72 h |
| `SecretStore.ClockMonotone` | storage.go:24-37 | no history of store operations moves the clock back |
| `SecretStore.ExpiredStaysExpired` | storage.go:31-33 | a secret that can no longer be read never becomes readable again, however much time passes, unless it is put anew |
| `Handlers.HandleShow` | server.go:37-68 | `Get`, template parse and render must all succeed before anything is written or deleted (an earlier error is returned, store and response untouched); then the page is sent with 200 and the id is deleted, or the `Delete` error is returned |
| `Handlers.ShowById` | server.go:45-67 | for a given id: any `Get`, parse or render error is returned with store and response untouched; otherwise `ServeContent` declares the page's length (if no header went out yet), sends 200 and writes the page, then the id is deleted, or the `Delete` error is returned and the entry kept |
| `Handlers.HandleStore` | server.go:70-99 | a body read, decode or random failure returns that error with the store unchanged; otherwise exactly one entry is put, under the hex of the random bytes, and the result is `{"id": key}`, or the `Put` error |
| `Handlers.HandleStatic` | server.go:32-35 | the static handler writes what `http.ServeFile` answers and returns nil |
| `Handlers.Server.constructor` | server.go:27-101 | main() registers GET `/`, GET `/l/` and POST `/` and installs one ServeMux pattern per path |
| `Handlers.NotFound` | server.go:129 | a path no registered pattern matches gets the ServeMux's 404 with the text `404 page not found` |
| `Handlers.Server.ServeHTTP` | server.go:126-164 | the handler that runs is the one the pattern and method select; 404 without a pattern, 405 and no store change without a handler; otherwise the route's response and store change below |
| `Handlers.RunStatic` | server.go:32-35 | the static route answers with `ServeFile`'s status and body |
| `Handlers.RunShow` | server.go:37-68 | read route: 400 and the envelope if it stopped before serving; 200 and the page with the id deleted; or, if `Delete` failed, 200 with the page alone, the secret kept, and a panic (below) |
| `Handlers.AnswerShow` | server.go:142-184 | after the read handler: an early error gives 400 and the envelope (a panic only if the envelope fails to marshal or to be written); a served page with a successful `Delete` adds nothing; after a failed `Delete` the envelope write passes the page's declared length, so the body stays the page and `wrapError` panics with the Content-Length error (or the marshal error) |
| `Handlers.RunStore` | server.go:70-99 | store route: 400 and the envelope if any step failed; otherwise the entry is put and the answer is 200 with `{"id": key}`, or nothing at all when that answer fails to marshal |
| `Handlers.MainRouting` | server.go:32-99 | under `/l/` only GET reaches a handler (the read handler); elsewhere GET serves files, POST stores, every other method gets 405 |
| `Handlers.StoreKeyShape` | server.go:87-93 | the new key is 16 lowercase hex digits and no other 8-byte draw gives the same key |
| `Handlers.ShowPageNeedsLiveSecret` | server.go:45-63 | the read handler reaches serving and `Delete` only for a live secret, rendered from exactly its value |
| `Handlers.SecondReadFails` | server.go:45-47 | after a read's `Delete`, the next read of that id stops at `Get` with `redis: nil` |
| `Handlers.LinkFindsKey` | share.js:28 | a link `/l/<key>/<hex password>` as the share page builds it leads the read handler to `key` |
| `Handlers.PostSecret` | server.go:70-99 | a POST to `/` stores the ciphertext under the hex of the random bytes with a 72 h expiry; the client receives 200, with `{"id": key}` when that answer marshals and an empty body otherwise |
| `Handlers.ReadLink` | server.go:37-68 | opening the link of a live secret answers 200 with its page and deletes it; for a key with no live secret the answer is 400 with the `redis: nil` envelope and nothing changes |
| `Handlers.ShareThenReadTwice` | server.go:37-99 | POST a secret (the client receives 200), open its link twice: 200 with the page, then 400 with the not-found envelope |

## Left out

- Server lifecycle and configuration (`serve`, `ListenAndServe`, shutdown, flags and environment variables) and logging: process I/O.
- `http.ServeFile`: its status and body are an input (`Env.staticFile`); file lookup and path cleaning of static files are not modelled.
- `html/template`: parsing is an input that may fail, execution a function of the ciphertext that may fail. `http.ServeContent` is modelled as declaring the page's `Content-Length`, status 200 and the page; its conditional and range requests and its other headers are not.
- `encoding/json`: `Marshal` and the decoding of the POST body into its `cipherText` field are inputs (functions that may fail); the byte-level JSON encoding is not modelled.
- `crypto/rand`: the 8 bytes, or its error, are an input.
- The Redis network client: replaced by the in-memory table; a transport failure is a `fault` argument.
- SecretStore.Store.Put: a failed SET leaves the table unchanged, whereas a real timeout may have been applied on the server.
- SecretStore.Store.Delete: a failed DEL leaves the table unchanged, for the same reason.
- Concurrency: the race between two readers' `Get` and `Delete` of the same id is not modelled; the model is sequential.
- ServeMux redirects (unclean paths, `/l` to `/l/`), host patterns and method patterns are not modelled; paths are matched as they arrive.
- `path.Clean` is modelled by its lexical rules on path elements, not by Go's buffer algorithm.
- Routes registered after `initHttpMultiplexer`: the model has a configuration phase and then a serving phase.
- A panic in `wrapError` is returned as a value; net/http's recovery from it (aborting the connection, so buffered output may never reach the client) is not modelled: the response fields hold what the handlers wrote.
- Response headers other than the status and `Content-Length`, the status-code range check of `WriteHeader`, and statuses that forbid a body (`Write` then fails with `http.ErrBodyNotAllowed`) are not modelled.
- SecretStore.Live: expiry follows Redis's rule that a key is expired only once the clock is past its expire time, so the secret is still readable at exactly t + 72 h; Redis's own clock and its millisecond resolution are abstracted into the model's single clock.
- Go's 64-bit integers and durations: the clock is unbounded, so overflow is not modelled.
- share.js: browser code; only the link shape it builds is used.

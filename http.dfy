/** The parts of Go's net/http that the router's behaviour depends on: the request as
    the handlers see it, status codes, and the response writer's header/body rules. */
module Http {
  import opened Wrappers

  const StatusOK: int := 200
  const StatusBadRequest: int := 400
  const StatusNotFound: int := 404
  const StatusMethodNotAllowed: int := 405

  const MethodGet: string := "GET"
  const MethodPost: string := "POST"

  /** The request: its method, its URL path, and what reading its body gives
      (`io.ReadAll(request.Body)` may fail). */
  datatype Request = Request(httpMethod: string, path: string, body: Result<string>)

  /** The error net/http's `Write` returns once the body outgrows a declared length. */
  const ErrContentLength: string := "http: wrote more than the declared Content-Length"

  /** What writing `data` returns on a writer with the given declared length, byte
      count and connection: nothing for empty data, the Content-Length error once the
      count would pass the declared length, otherwise the connection's error. */
  function WriteError(declared: Option<nat>, written: nat, failure: Option<string>, data: string): Option<string>
  {
    if |data| == 0 then None
    else if declared.Some? && written + |data| > declared.value then Some(ErrContentLength)
    else failure
  }

  /** The response writer: the status code once a header was written, the body bytes
      delivered so far, the Content-Length declared before the header went out, the
      count of bytes the handler has written, and whether the connection rejects body
      writes (and with what error). */
  class ResponseWriter {
    var status: Option<int>
    var body: string
    var declared: Option<nat>
    var written: nat
    const failure: Option<string>

    constructor (failure: Option<string>)
      ensures Untouched() && this.failure == failure
    {
      status := None;
      body := [];
      declared := None;
      written := 0;
      this.failure := failure;
    }

    /** The writer as net/http hands it to a handler: nothing declared or written. */
    ghost predicate Untouched()
      reads this
    {
      status.None? && body == [] && declared.None? && written == 0
    }

    /** Setting the `Content-Length` header: it takes effect only while no header has
        been written. */
    method DeclareLength(n: nat)
      modifies this`declared
      ensures declared == if status.None? then Some(n) else old(declared)
    {
      if status.None? {
        declared := Some(n);
      }
    }

    /** Only the first call sets the status; a later one is a superfluous call and ignored. */
    method WriteHeader(code: int)
      modifies this`status
      ensures status == if old(status).None? then Some(code) else old(status)
    {
      if status.None? {
        status := Some(code);
      }
    }

    /** A write without a header first sends status 200; the bytes are counted whether
        or not they are delivered, and delivered only when the write reports no error. */
    method Write(data: string) returns (err: Option<string>)
      modifies this`status, this`body, this`written
      ensures status == if old(status).None? then Some(StatusOK) else old(status)
      ensures err == WriteError(old(declared), old(written), failure, data)
      ensures written == old(written) + |data|
      ensures body == if err.None? then old(body) + data else old(body)
    {
      WriteHeader(StatusOK);
      if |data| == 0 {
        return None;
      }
      written := written + |data|;
      if declared.Some? && written > declared.value {
        return Some(ErrContentLength);
      }
      if failure.Some? {
        return failure;
      }
      body := body + data;
      return None;
    }
  }

  /** The status the client receives: net/http sends 200 when the handler wrote nothing. */
  function SentStatus(status: Option<int>): int
  {
    if status.Some? then status.value else StatusOK
  }
}

/**
  What the client writes to standard output once the response arrives,
  whether an exception escapes `run_query`, and the exit code `main`
  returns. The HTTP exchange is a parameter: a function from the request
  to the response the server gives, or None when sending or signing raises.
 */
module Cli {
  import opened Query

  /**
    `json.dumps(r.json(), indent=2)`: either the pretty-printed body, or
    the body was not JSON (the parse raised).
   */
  datatype BodyParse = Parsed(pretty: string) | Unparsable

  /** The part of the HTTP response the client looks at: `r.ok` and the body. */
  datatype Response = Response(ok: bool, body: BodyParse)

  /** What each `print` call wrote to standard output, in order, and whether an exception escaped. */
  datatype Outcome = Outcome(stdout: seq<string>, raised: bool)

  /**
    The reporting part of `run_query`. The body is printed whenever it
    parses, whatever the status. An unparsable body raises only on an OK
    status; on an error status the failure is swallowed and nothing is
    printed.
   */
  function ReportResponse(resp: Response): (o: Outcome)
    ensures o.raised <==> resp.ok && resp.body.Unparsable?
    ensures o.stdout == if resp.body.Parsed? then [resp.body.pretty] else []
  {
    if resp.ok then
      match resp.body
      case Parsed(text) => Outcome([text], false)
      case Unparsable => Outcome([], true)
    else
      match resp.body
      case Parsed(text) => Outcome([text], false)
      case Unparsable => Outcome([], false)
  }

  /** The request a `query` run sends when its variant unpacks. */
  function SentRequest(endpoint: string, variant: Option<string>, key: seq<byte>, keyId: string,
                       user: string): Request
    requires !Malformed(variant)
  {
    BuildRequest(StripTrailingSlashes(endpoint), variant, key, keyId, user).value
  }

  /**
    One `query` invocation: build the request from the raw endpoint, the
    variant, the key bytes, the key id and the user, send it to `server`,
    and report. `server` answers None when `requests.get` or the signer
    raises. A malformed variant raises before anything is sent or
    printed; so does a failed exchange. Otherwise the body is printed
    exactly when it parses, and the run raises exactly on an OK status
    with an unparsable body.
   */
  function RunQuery(endpoint: string, variant: Option<string>, key: seq<byte>, keyId: string,
                    user: string, server: Request -> Option<Response>): (o: Outcome)
    ensures Malformed(variant) ==> o == Outcome([], true)
    ensures !Malformed(variant) && server(SentRequest(endpoint, variant, key, keyId, user)).None? ==>
      o == Outcome([], true)
    ensures !Malformed(variant) && server(SentRequest(endpoint, variant, key, keyId, user)).Some? ==>
      var resp := server(SentRequest(endpoint, variant, key, keyId, user)).value;
      && o.stdout == (if resp.body.Parsed? then [resp.body.pretty] else [])
      && (o.raised <==> resp.ok && resp.body.Unparsable?)
  {
    match BuildRequest(StripTrailingSlashes(endpoint), variant, key, keyId, user)
    case Err(_) => Outcome([], true)
    case Ok(req) =>
      match server(req)
      case None => Outcome([], true)
      case Some(resp) => ReportResponse(resp)
  }

  /**
    `main` after argument parsing: `handler` is None when no subcommand
    was chosen (so there is no `func`), otherwise the outcome of running
    the chosen handler.
   */
  datatype Exit = Returned(code: int) | Propagated

  function ExitStatus(handler: Option<Outcome>): (e: Exit)
    ensures e == Returned(1) <==> handler.None?
    ensures e == Returned(0) <==> handler.Some? && !handler.value.raised
    ensures e.Propagated? <==> handler.Some? && handler.value.raised
  {
    match handler
    case None => Returned(1)
    case Some(o) => if o.raised then Propagated else Returned(0)
  }

  /**
    An HTTP error status on the request sent is recovered locally: for a
    well-formed (or absent) variant the query prints the error body
    exactly when it is JSON, and `main` returns 0 either way.
   */
  lemma ErrorStatusExitsZero(endpoint: string, variant: Option<string>, key: seq<byte>, keyId: string,
                             user: string, server: Request -> Option<Response>)
    requires !Malformed(variant)
    requires server(SentRequest(endpoint, variant, key, keyId, user)).Some?
    requires !server(SentRequest(endpoint, variant, key, keyId, user)).value.ok
    ensures var o := RunQuery(endpoint, variant, key, keyId, user, server);
      var body := server(SentRequest(endpoint, variant, key, keyId, user)).value.body;
      ExitStatus(Some(o)) == Returned(0) &&
      o.stdout == if body.Parsed? then [body.pretty] else []
  {
  }

  /**
    A successful status with a JSON body on the request sent prints that
    body, pretty-printed, as the only printed text on standard output, and
    `main` returns 0.
   */
  lemma OkJsonPrintsBody(endpoint: string, variant: Option<string>, key: seq<byte>, keyId: string,
                         user: string, server: Request -> Option<Response>, text: string)
    requires !Malformed(variant)
    requires server(SentRequest(endpoint, variant, key, keyId, user)) == Some(Response(true, Parsed(text)))
    ensures var o := RunQuery(endpoint, variant, key, keyId, user, server);
      o == Outcome([text], false) && ExitStatus(Some(o)) == Returned(0)
  {
  }
}

/**
 The upstream side of both handlers in backend/app.py: the URL each one requests,
 and the JSON error reply each kind of request failure is turned into.
 */
module Upstream {
  import opened Wrappers
  import opened PyValue

  /** `s.rstrip('/')`: `s` without any of its trailing slashes. */
  function TrimTrailingSlashes(s: string): (r: string)
    ensures r <= s
    ensures r == [] || r[|r| - 1] != '/'
    ensures forall i :: |r| <= i < |s| ==> s[i] == '/'
    decreases |s|
  {
    if s != [] && s[|s| - 1] == '/' then TrimTrailingSlashes(s[..|s| - 1]) else s
  }

  /** The upstream URL of the station list: `{base.rstrip('/')}/stations/`. */
  function ListUrl(base: string): (r: string)
    ensures 10 <= |r| && r[|r| - 10..] == "/stations/"
    ensures |r| == 10 || r[|r| - 11] != '/'
    ensures r[..|r| - 10] <= base
  {
    var p := TrimTrailingSlashes(base);
    assert (p + "/stations/")[..|p|] == p;
    p + "/stations/"
  }

  /** The upstream URL of one station: `{base.rstrip('/')}/stations/{id}`. */
  function DetailUrl(base: string, id: string): (r: string)
    ensures r == ListUrl(base) + id
  {
    TrimTrailingSlashes(base) + "/stations/" + id
  }

  /** `n` slashes. */
  function Slashes(n: nat): (r: string)
    ensures |r| == n && forall i :: 0 <= i < n ==> r[i] == '/'
  {
    if n == 0 then [] else Slashes(n - 1) + "/"
  }

  /** Extra trailing slashes on the base make no difference. */
  lemma {:induction false} TrimIgnoresExtraSlashes(s: string, n: nat)
    ensures TrimTrailingSlashes(s + Slashes(n)) == TrimTrailingSlashes(s)
  {
    if n > 0 {
      var t := s + Slashes(n);
      assert t[..|t| - 1] == s + Slashes(n - 1);
      TrimIgnoresExtraSlashes(s, n - 1);
    } else {
      assert s + Slashes(0) == s;
    }
  }

  /**
   Exactly one slash separates the base from `stations`: the base, less all its
   trailing slashes, followed by `/stations/` and the id; so a configured base with
   or without trailing slashes yields the same URLs.
   */
  lemma OneSlashBeforeStations(base: string, id: string, n: nat)
    ensures var p := TrimTrailingSlashes(base);
      && base == p + Slashes(|base| - |p|)
      && (p == [] || p[|p| - 1] != '/')
      && ListUrl(base) == p + "/stations/"
      && DetailUrl(base, id) == p + "/stations/" + id
    ensures ListUrl(base + Slashes(n)) == ListUrl(base)
    ensures DetailUrl(base + Slashes(n), id) == DetailUrl(base, id)
  {
    var p := TrimTrailingSlashes(base);
    assert base == p + base[|p|..];
    assert base[|p|..] == Slashes(|base| - |p|);
    TrimIgnoresExtraSlashes(base, n);
  }

  /** Exception classes of the `requests` library (and `ValueError`) the handlers tell apart. */
  datatype ExceptionClass = RequestException | Timeout | HTTPError | ValueError

  /** The upstream reply attached to an `HTTPError`: its status, its body as JSON if it parses, its text. */
  datatype ErrorResponse = ErrorResponse(status: int, json: Option<Value>, text: string)

  /**
   An exception raised inside a handler's `try`: every class it is an instance of
   (an `HTTPError` is also a `RequestException`), `str(e)`, and `e.response`.
   */
  datatype Raised = Raised(classes: set<ExceptionClass>, message: string, response: Option<ErrorResponse>)

  /** What a handler answers. */
  datatype Reply =
    | JsonReply(body: Value, status: int)                              // `jsonify(...)`, status
    | Forwarded(content: seq<bv8>, status: int, contentType: string)   // upstream body passed through
    | InternalError                                                    // uncaught exception: Flask answers 500

  const TimeoutMessage := "Upstream timeout"
  const TimeoutDetail := "Timeout contacting upstream service"
  const HttpErrorMessage := "Upstream returned error"
  const NetworkErrorMessage := "Errore contattando il servizio upstream"
  const InvalidJsonMessage := "Invalid JSON from upstream"

  /** `{"message": message, "detail": detail}` */
  function ErrorBody(message: string, detail: Value): Value {
    Dict(map[Str("message") := Str(message), Str("detail") := detail])
  }

  /** The upstream reply's body as JSON, else its text when non-empty, else `str(e)`. */
  function HttpErrorDetail(e: Raised, resp: ErrorResponse): Value {
    if resp.json.Some? then resp.json.value
    else if resp.text != "" then Str(resp.text) else Str(e.message)
  }

  /**
   The `except HTTPError` branch as written: the status defaults to 502 when the
   exception carries no response, but the detail is then read from that missing
   response, which raises again.
   */
  function HttpErrorReplyAsWritten(e: Raised): Reply {
    match e.response
    case None => InternalError
    case Some(resp) => JsonReply(ErrorBody(HttpErrorMessage, HttpErrorDetail(e, resp)), resp.status)
  }

  /**
   The `except HTTPError` branch as intended: the upstream status and detail, and
   502 with `str(e)` when no upstream reply is attached.
   */
  function HttpErrorReply(e: Raised): (r: Reply)
    ensures e.response.None? ==> r == JsonReply(ErrorBody(HttpErrorMessage, Str(e.message)), 502)
    ensures e.response.Some? ==> r == HttpErrorReplyAsWritten(e)
  {
    match e.response
    case None => JsonReply(ErrorBody(HttpErrorMessage, Str(e.message)), 502)
    case Some(_) => HttpErrorReplyAsWritten(e)
  }

  /**
   The `except` clauses of both handlers, tried in order, with `httpErrorReply` as
   the answer of the `HTTPError` clause; `catchValueError` adds the detail handler's
   last clause. An exception no clause catches escapes.
   */
  function CatchClauses(e: Raised, catchValueError: bool, httpErrorReply: Reply): Reply {
    if Timeout in e.classes then JsonReply(ErrorBody(TimeoutMessage, Str(TimeoutDetail)), 504)
    else if HTTPError in e.classes then httpErrorReply
    else if RequestException in e.classes then JsonReply(ErrorBody(NetworkErrorMessage, Str(e.message)), 502)
    else if catchValueError && ExceptionClass.ValueError in e.classes then JsonReply(ErrorBody(InvalidJsonMessage, Str(e.message)), 502)
    else InternalError
  }

  /**
   The `except` clauses as written: an `HTTPError` without an attached response
   escapes from its own clause, like an exception no clause catches.
   */
  function FailureReplyAsWritten(e: Raised, catchValueError: bool): (r: Reply)
    ensures !r.Forwarded?
    ensures r.InternalError? <==>
      (Timeout !in e.classes && HTTPError !in e.classes && RequestException !in e.classes &&
       !(catchValueError && ExceptionClass.ValueError in e.classes)) ||
      (Timeout !in e.classes && HTTPError in e.classes && e.response.None?)
  {
    CatchClauses(e, catchValueError, HttpErrorReplyAsWritten(e))
  }

  /**
   The `except` clauses with the corrected `HTTPError` branch: every caught failure
   is answered 504, 502 or the upstream's own status.
   */
  function FailureReply(e: Raised, catchValueError: bool): (r: Reply)
    ensures !r.Forwarded?
    ensures r.JsonReply? ==> r.status in {502, 504} || (e.response.Some? && r.status == e.response.value.status)
  {
    CatchClauses(e, catchValueError, HttpErrorReply(e))
  }

  /**
   The two halves of the `HTTPError` branch agree whenever the exception carries the
   upstream reply, and differ only without one: as written the handler raises again
   (Flask's 500); as intended it answers 502 with the exception text.
   */
  lemma MissingResponseDiscrepancy(e: Raised)
    requires e.response.None?
    ensures HttpErrorReplyAsWritten(e) == InternalError
    ensures HttpErrorReply(e) == JsonReply(ErrorBody(HttpErrorMessage, Str(e.message)), 502)
  {
  }

  /** A timeout is answered 504 with the fixed message, whatever other classes it belongs to. */
  lemma TimeoutCheckedFirst(e: Raised, catchValueError: bool)
    requires Timeout in e.classes
    ensures FailureReply(e, catchValueError) == JsonReply(ErrorBody(TimeoutMessage, Str(TimeoutDetail)), 504)
  {
  }

  /**
   An HTTP error (that is not a timeout) keeps the upstream status and forwards the
   upstream detail: its JSON body, else its text, else the exception text.
   */
  lemma HttpErrorKeepsUpstreamStatus(e: Raised, catchValueError: bool)
    requires Timeout !in e.classes && HTTPError in e.classes && e.response.Some?
    ensures FailureReply(e, catchValueError).JsonReply?
    ensures FailureReply(e, catchValueError).status == e.response.value.status
    ensures FailureReply(e, catchValueError).body.fields[Str("message")] == Str(HttpErrorMessage)
    ensures e.response.value.json.Some? ==>
      FailureReply(e, catchValueError).body.fields[Str("detail")] == e.response.value.json.value
    ensures e.response.value.json.None? && e.response.value.text != "" ==>
      FailureReply(e, catchValueError).body.fields[Str("detail")] == Str(e.response.value.text)
    ensures e.response.value.json.None? && e.response.value.text == "" ==>
      FailureReply(e, catchValueError).body.fields[Str("detail")] == Str(e.message)
    ensures FailureReplyAsWritten(e, catchValueError) == FailureReply(e, catchValueError)
  {
  }

  /** Any other request error is answered 502 with the exception text. */
  lemma OtherRequestErrorIs502(e: Raised, catchValueError: bool)
    requires Timeout !in e.classes && HTTPError !in e.classes && RequestException in e.classes
    ensures FailureReply(e, catchValueError) == JsonReply(ErrorBody(NetworkErrorMessage, Str(e.message)), 502)
  {
  }

  /**
   A body that is not valid JSON (the `ValueError` from `r.json()`, which recent
   versions of `requests` also make a `RequestException`) is answered 502 on the
   detail route either way; only the message depends on which clause catches it.
   */
  lemma InvalidJsonIs502(e: Raised)
    requires ExceptionClass.ValueError in e.classes && Timeout !in e.classes && HTTPError !in e.classes
    ensures FailureReply(e, true).JsonReply? && FailureReply(e, true).status == 502
    ensures FailureReply(e, true).body.fields[Str("message")] ==
      Str(if RequestException in e.classes then NetworkErrorMessage else InvalidJsonMessage)
  {
  }

  /**
   With the corrected `HTTPError` branch, only an exception outside the `except`
   clauses escapes; as written, an `HTTPError` without a response escapes too, and
   that is the only input on which the two differ.
   */
  lemma FailureStatuses(e: Raised, catchValueError: bool)
    ensures FailureReply(e, catchValueError).InternalError? <==>
      Timeout !in e.classes && HTTPError !in e.classes && RequestException !in e.classes &&
      !(catchValueError && ExceptionClass.ValueError in e.classes)
    ensures FailureReplyAsWritten(e, catchValueError) != FailureReply(e, catchValueError) <==>
      Timeout !in e.classes && HTTPError in e.classes && e.response.None?
  {
  }
}

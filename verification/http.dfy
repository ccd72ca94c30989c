/** The slice of Go's `net/http` and of the session and context machinery
    that the middleware and handlers use: response headers, status texts,
    the two kinds of reply the application writes (`http.Error` and
    `http.Redirect`), the session store of one request and the request
    context that carries the authentication flag. */
module Http {
  import opened Wrappers

  // ---------------------------------------------------------------------
  // Status codes

  const StatusSeeOther: int := 303
  const StatusBadRequest: int := 400
  const StatusNotFound: int := 404
  const StatusInternalServerError: int := 500

  /** `http.StatusText`: the standard reason phrase of a status code, or ""
      for a code Go does not know. */
  function StatusText(code: int): string {
    match code
    case 100 => "Continue"
    case 101 => "Switching Protocols"
    case 102 => "Processing"
    case 103 => "Early Hints"
    case 200 => "OK"
    case 201 => "Created"
    case 202 => "Accepted"
    case 203 => "Non-Authoritative Information"
    case 204 => "No Content"
    case 205 => "Reset Content"
    case 206 => "Partial Content"
    case 207 => "Multi-Status"
    case 208 => "Already Reported"
    case 226 => "IM Used"
    case 300 => "Multiple Choices"
    case 301 => "Moved Permanently"
    case 302 => "Found"
    case 303 => "See Other"
    case 304 => "Not Modified"
    case 305 => "Use Proxy"
    case 307 => "Temporary Redirect"
    case 308 => "Permanent Redirect"
    case 400 => "Bad Request"
    case 401 => "Unauthorized"
    case 402 => "Payment Required"
    case 403 => "Forbidden"
    case 404 => "Not Found"
    case 405 => "Method Not Allowed"
    case 406 => "Not Acceptable"
    case 407 => "Proxy Authentication Required"
    case 408 => "Request Timeout"
    case 409 => "Conflict"
    case 410 => "Gone"
    case 411 => "Length Required"
    case 412 => "Precondition Failed"
    case 413 => "Request Entity Too Large"
    case 414 => "Request URI Too Long"
    case 415 => "Unsupported Media Type"
    case 416 => "Requested Range Not Satisfiable"
    case 417 => "Expectation Failed"
    case 418 => "I'm a teapot"
    case 421 => "Misdirected Request"
    case 422 => "Unprocessable Entity"
    case 423 => "Locked"
    case 424 => "Failed Dependency"
    case 425 => "Too Early"
    case 426 => "Upgrade Required"
    case 428 => "Precondition Required"
    case 429 => "Too Many Requests"
    case 431 => "Request Header Fields Too Large"
    case 451 => "Unavailable For Legal Reasons"
    case 500 => "Internal Server Error"
    case 501 => "Not Implemented"
    case 502 => "Bad Gateway"
    case 503 => "Service Unavailable"
    case 504 => "Gateway Timeout"
    case 505 => "HTTP Version Not Supported"
    case 506 => "Variant Also Negotiates"
    case 507 => "Insufficient Storage"
    case 508 => "Loop Detected"
    case 510 => "Not Extended"
    case 511 => "Network Authentication Required"
    case _ => ""
  }

  /** The reason phrases of the codes the application sends. */
  lemma StatusTexts()
    ensures StatusText(StatusSeeOther) == "See Other"
    ensures StatusText(StatusBadRequest) == "Bad Request"
    ensures StatusText(StatusNotFound) == "Not Found"
    ensures StatusText(StatusInternalServerError) == "Internal Server Error"
  {
  }

  /** A code outside the table has the empty reason phrase. */
  lemma UnknownStatusText(code: int)
    requires code < 100 || code >= 600
    ensures StatusText(code) == ""
  {
  }

  // ---------------------------------------------------------------------
  // Response headers

  /** Response headers written so far: header name to its values. */
  type Headers = map<string, seq<string>>

  function HeaderValues(h: Headers, key: string): seq<string> {
    if key in h then h[key] else []
  }

  /** `Header.Get`: the first value of `key`, or "". */
  function HeaderGet(h: Headers, key: string): string {
    if key in h && |h[key]| > 0 then h[key][0] else ""
  }

  /** `Header.Set`: `key` now has exactly the one value `value`; every other
      header is untouched. */
  function HeaderSet(h: Headers, key: string, value: string): (r: Headers)
    ensures HeaderValues(r, key) == [value] && HeaderGet(r, key) == value
    ensures forall k :: k != key ==> HeaderValues(r, k) == HeaderValues(h, k)
  {
    h[key := [value]]
  }

  /** `Header.Add`: `value` is appended after the values `key` already had;
      every other header is untouched. */
  function HeaderAdd(h: Headers, key: string, value: string): (r: Headers)
    ensures HeaderValues(r, key) == HeaderValues(h, key) + [value]
    ensures forall k :: k != key ==> HeaderValues(r, k) == HeaderValues(h, k)
  {
    h[key := HeaderValues(h, key) + [value]]
  }

  // ---------------------------------------------------------------------
  // Replies written directly to the client

  /** `http.Error(w, text, status)` writes an error page with that status
      and text; `http.Redirect(w, r, location, status)` sends the client to
      `location`. */
  datatype Reply =
    | ErrorReply(status: int, text: string)
    | RedirectReply(status: int, location: string)

  // ---------------------------------------------------------------------
  // Session

  /** A value kept in the session store. */
  datatype SessionValue = IntValue(i: int) | StringValue(s: string) | BoolValue(b: bool)

  /** The session data of one request. */
  type Session = map<string, SessionValue>

  /** The session key naming the logged-in user. */
  const AuthenticatedUserIdKey: string := "authenticatedUserID"
  /** The session key holding a one-shot flash message. */
  const FlashKey: string := "flash"

  /** `Session.GetInt`: the integer under `key`, or 0 when the key is absent
      or holds something else. */
  function SessionGetInt(s: Session, key: string): (r: int)
    ensures key in s && s[key].IntValue? ==> r == s[key].i
    ensures r != 0 ==> key in s && s[key] == IntValue(r)
  {
    if key in s && s[key].IntValue? then s[key].i else 0
  }

  /** `Session.PopString`: the string under `key` (or "" when it is absent
      or not a string), together with the session with `key` removed. */
  function SessionPopString(s: Session, key: string): (r: (string, Session))
    ensures key !in r.1 && forall k :: k in s && k != key ==> k in r.1 && r.1[k] == s[k]
    ensures r.1.Keys == s.Keys - {key}
    ensures r.0 != "" ==> key in s && s[key] == StringValue(r.0)
    ensures key in s && s[key].StringValue? ==> r.0 == s[key].s
  {
    var v := if key in s && s[key].StringValue? then s[key].s else "";
    (v, s - {key})
  }

  // ---------------------------------------------------------------------
  // Request context

  /** What the request context may hold under the authentication key: a
      boolean, or a value of some other type. */
  datatype ContextValue = Flag(b: bool) | NonBool

  /** The request context, reduced to the one entry the application reads. */
  datatype Context = Context(authFlag: Option<ContextValue>)

  /** `context.WithValue(ctx, contextKeyIsAuthenticated, true)`. */
  function WithAuthenticated(ctx: Context): (r: Context)
    ensures r.authFlag == Some(Flag(true))
  {
    ctx.(authFlag := Some(Flag(true)))
  }

  /** A request as the middleware sees it: its context and its session. */
  datatype Request = Request(ctx: Context, session: Session)
}

/**
 * The HTTP probe of the MCP server (mcp-server/src/tools/network.ts): the
 * timeout and method it settles on, the error text it reports, and the result
 * record. The fetch itself, the clock and URL parsing are parameters: the
 * outcome of the request, the start and end times, and the host name the URL
 * parser would give.
 */
module NetworkTool {
  import opened Js

  const DefaultTimeoutMs: int := 10000
  const AllowedMethods: set<string> := {"GET", "POST", "HEAD"}
  const UserAgent: string := "Auto-Troubleshooting/1.0"

  // ---------------------------------------------------------------------------
  // Timeout and method

  /** A timeout `fetch` can be aborted after: a positive number. */
  predicate PositiveNumber(n: Num) {
    match n
    case Finite(i) => i > 0
    case PosInfinity => true
    case _ => false
  }

  /** `normalizeTimeout(timeout)`: anything but a positive number falls back
      to ten seconds. */
  function NormalizeTimeout(timeout: Json): (r: Num)
    ensures PositiveNumber(r)
    ensures timeout.Number? && PositiveNumber(timeout.num) ==> r == timeout.num
    ensures !(timeout.Number? && PositiveNumber(timeout.num)) ==> r == Finite(DefaultTimeoutMs)
  {
    if !timeout.Number? then Finite(DefaultTimeoutMs)
    else match timeout.num
      case NaN => Finite(DefaultTimeoutMs)
      case NegInfinity => Finite(DefaultTimeoutMs)
      case Finite(i) => if i <= 0 then Finite(DefaultTimeoutMs) else timeout.num
      case PosInfinity => timeout.num
  }

  /** A normalised timeout is its own normal form. */
  lemma NormalizeTimeoutIdempotent(timeout: Json)
    ensures NormalizeTimeout(Number(NormalizeTimeout(timeout))) == NormalizeTimeout(timeout)
  {
  }

  /** A numeric string is not a number: `"5000"` gives the default. */
  lemma StringTimeoutIgnored(s: string)
    ensures NormalizeTimeout(Str(s)) == Finite(DefaultTimeoutMs)
  {
  }

  /** `normalizeMethod(method)`: upper-cased, and `GET` unless it is one of
      the three allowed methods; a missing method is `GET`. */
  function NormalizeMethod(verb: Option<string>): (r: string)
    ensures r in AllowedMethods
    ensures verb.Some? && Upper(verb.value) in AllowedMethods ==> r == Upper(verb.value)
    ensures verb.Some? && Upper(verb.value) !in AllowedMethods ==> r == "GET"
    ensures verb.None? ==> r == "GET"
  {
    var normalized := Upper(verb.GetOr("GET"));
    if normalized in AllowedMethods then normalized else "GET"
  }

  lemma {:induction false} UpperTwice(s: string)
    ensures Upper(Upper(s)) == Upper(s)
    decreases |s|
  {
    if |s| > 0 {
      UpperTwice(s[1..]);
    }
  }

  lemma {:induction false} UpperFixed(s: string)
    requires forall i :: 0 <= i < |s| ==> !('a' <= s[i] <= 'z')
    ensures Upper(s) == s
    decreases |s|
  {
    if |s| > 0 {
      UpperFixed(s[1..]);
    }
  }

  /** Normalising a normalised method changes nothing. */
  lemma NormalizeMethodIdempotent(verb: Option<string>)
    ensures NormalizeMethod(Some(NormalizeMethod(verb))) == NormalizeMethod(verb)
  {
    var r := NormalizeMethod(verb);
    if r == "GET" {
      UpperFixed(r);
    } else {
      UpperTwice(verb.value);
    }
  }

  /** Methods are matched regardless of case. */
  lemma MethodIgnoresCase(a: string, b: string)
    requires Upper(a) == Upper(b)
    ensures NormalizeMethod(Some(a)) == NormalizeMethod(Some(b))
  {
  }

  // ---------------------------------------------------------------------------
  // Error text

  /** `typeof v === "object"` for the values this model has. */
  predicate IsObject(v: Json) {
    v.Null? || v.Arr? || v.Obj?
  }

  /** `resolveErrorCode(error)`: the error's own `code`, else its cause's;
      `undefined` for anything that is not an object. */
  function ResolveErrorCode(error: Json): (r: Json)
    ensures !error.Obj? ==> r == Undefined
    ensures error.Obj? && !Nullish(Get(error, "code")) ==> r == Get(error, "code")
    ensures error.Obj? && Nullish(Get(error, "code")) ==> r == Get(Get(error, "cause"), "code")
  {
    if !Truthy(error) || !IsObject(error) then Undefined
    else Coalesce(Get(error, "code"), if Nullish(Get(error, "cause")) then Undefined else Get(Get(error, "cause"), "code"))
  }

  /** `mapErrorMessage(error, url, timeout)`. `hostname` is what
      `new URL(url).hostname` gives, `None` when the URL does not parse. */
  function MapErrorMessage(error: Json, url: string, hostname: Option<string>, timeout: Num): (r: Json)
    ensures Truthy(r)
    ensures Get(error, "name") == Str("AbortError") ==> r == Str("Timeout após " + NumToString(timeout) + "ms")
    ensures Get(error, "name") != Str("AbortError") ==>
      var code := ResolveErrorCode(error);
      && (code == Str("ENOTFOUND") ==>
            r == Str(if hostname.Some? && |hostname.value| > 0 then "DNS não resolvido: " + hostname.value
                     else "DNS não resolvido"))
      && (code == Str("ECONNREFUSED") ==> r == Str("Conexão recusada: " + url))
      && (code == Str("ECONNRESET") ==> r == Str("Conexão resetada pelo servidor"))
      && (code !in {Str("ENOTFOUND"), Str("ECONNREFUSED"), Str("ECONNRESET")} ==>
            r == Or(Get(error, "message"), Str("Unknown error")))
  {
    if Get(error, "name") == Str("AbortError") then Str("Timeout após " + NumToString(timeout) + "ms")
    else
      var code := ResolveErrorCode(error);
      if code == Str("ENOTFOUND") then
        if hostname.Some? && |hostname.value| > 0 then Str("DNS não resolvido: " + hostname.value)
        else Str("DNS não resolvido")
      else if code == Str("ECONNREFUSED") then Str("Conexão recusada: " + url)
      else if code == Str("ECONNRESET") then Str("Conexão resetada pelo servidor")
      else Or(Get(error, "message"), Str("Unknown error"))
  }

  /** A code carried only by the error's cause, as `fetch` wraps system
      errors, is recognised like one on the error itself. */
  lemma CauseCodeRecognised(error: Json, url: string, hostname: Option<string>, timeout: Num)
    requires error.Obj? && Get(error, "name") != Str("AbortError") && Nullish(Get(error, "code"))
    requires Get(Get(error, "cause"), "code") == Str("ECONNREFUSED")
    ensures MapErrorMessage(error, url, hostname, timeout) == Str("Conexão recusada: " + url)
  {
  }

  /** An error that is not an object, such as a thrown string, reports
      `Unknown error`. */
  lemma ThrownStringUnknown(s: string, url: string, hostname: Option<string>, timeout: Num)
    ensures MapErrorMessage(Str(s), url, hostname, timeout) == Str("Unknown error")
  {
  }

  // ---------------------------------------------------------------------------
  // The request

  /** What `fetch` is called with. */
  datatype FetchRequest = FetchRequest(url: string, verb: string, userAgent: string, abortAfterMs: Num)

  /** What `fetch` settles to: a response with its header entries, or a
      rejection with the thrown value. */
  datatype FetchOutcome =
    | Response(status: int, headerEntries: seq<(string, string)>)
    | Rejected(error: Json)

  /** `HttpResult`: `statusCode` is `null` exactly when the request failed. */
  datatype HttpResult = HttpResult(
    statusCode: Option<int>,
    responseTimeMs: int,
    error: Option<Json>,
    headers: Option<map<string, string>>)

  /** `Object.fromEntries(entries)`: a later entry for the same name wins. */
  function FromEntries(entries: seq<(string, string)>): (r: map<string, string>)
    ensures r.Keys == set i | 0 <= i < |entries| :: entries[i].0
    ensures forall i :: 0 <= i < |entries| && (forall j :: i < j < |entries| ==> entries[j].0 != entries[i].0) ==>
      r[entries[i].0] == entries[i].1
    decreases |entries|
  {
    if |entries| == 0 then map[]
    else
      var init := entries[..|entries| - 1];
      var last := entries[|entries| - 1];
      var r := FromEntries(init)[last.0 := last.1];
      assert forall i :: 0 <= i < |init| ==> init[i] == entries[i];
      r
  }

  /** `httpRequest(url, method, timeout)` given the fetch outcome and the
      clock readings before and after it. */
  function HttpRequest(url: string, verb: Option<string>, timeout: Json, hostname: Option<string>,
                       outcome: FetchOutcome, start: int, end: int): (r: (FetchRequest, HttpResult))
    ensures r.0 == FetchRequest(url, NormalizeMethod(verb), UserAgent, NormalizeTimeout(timeout))
    ensures r.1.responseTimeMs == end - start
    ensures r.1.statusCode.None? <==> outcome.Rejected?
    ensures r.1.error.Some? <==> outcome.Rejected?
    ensures r.1.headers.Some? <==> outcome.Response?
    ensures outcome.Response? ==> (r.1.statusCode == Some(outcome.status)
      && r.1.headers == Some(FromEntries(outcome.headerEntries)))
    ensures outcome.Rejected? ==> r.1.error == Some(MapErrorMessage(outcome.error, url, hostname, NormalizeTimeout(timeout)))
  {
    var effective := NormalizeTimeout(timeout);
    var request := FetchRequest(url, NormalizeMethod(verb), UserAgent, effective);
    match outcome
    case Response(status, entries) =>
      (request, HttpResult(Some(status), end - start, None, Some(FromEntries(entries))))
    case Rejected(error) =>
      (request, HttpResult(None, end - start, Some(MapErrorMessage(error, url, hostname, effective)), None))
  }

  /** An aborted request reports the timeout actually used, not the one
      asked for. */
  lemma AbortReportsEffectiveTimeout(url: string, verb: Option<string>, timeout: Json, hostname: Option<string>,
                                     message: string, start: int, end: int)
    requires !(timeout.Number? && PositiveNumber(timeout.num))
    ensures var abort := Obj([Member("name", Str("AbortError")), Member("message", Str(message))]);
      HttpRequest(url, verb, timeout, hostname, Rejected(abort), start, end).1.error
        == Some(Str("Timeout após " + NumToString(Finite(DefaultTimeoutMs)) + "ms"))
  {
    var abort := Obj([Member("name", Str("AbortError")), Member("message", Str(message))]);
    assert Get(abort, "name") == Str("AbortError");
  }
}

/**
 * The `/api/ask` route: a proxy that checks the chat request, forwards
 * `{message, context, sessionId}` to the upstream conversational API once,
 * and turns the upstream outcome into the response.
 *
 * The awaited effects of the handler are inputs here: what `request.json()`
 * yields (`RequestBody`) and what the `fetch` to the upstream, with its
 * `text()` or `json()`, yields (`Upstream`). `Post` returns the payload it
 * forwards, if any, with the response.
 */
module AskRoute {
  import opened Wrappers
  import opened Text

  /** A JSON value. Numbers are reals: JSON has no NaN and no infinities. */
  datatype Json =
    | Null
    | Bool(b: bool)
    | Num(n: real)
    | Str(s: string)
    | Arr(items: seq<Json>)
    | Obj(fields: map<string, Json>)

  /** JavaScript truthiness of a value that may be `undefined` (`None`). */
  predicate Truthy(v: Option<Json>)
  {
    match v
    case None => false
    case Some(j) =>
      match j
      case Null => false
      case Bool(b) => b
      case Num(n) => n != 0.0
      case Str(s) => s != []
      case Arr(_) => true
      case Obj(_) => true
  }

  /**
   * The property `key` of a non-null JSON value, as destructuring reads it:
   * an object's own field, and `undefined` for everything else (neither
   * arrays, strings, numbers nor booleans have these properties).
   */
  function Prop(body: Json, key: string): Option<Json>
    requires !body.Null?
  {
    if body.Obj? && key in body.fields then Some(body.fields[key]) else None
  }

  /** `v || fallback`. */
  function OrElse(v: Option<Json>, fallback: string): (r: Json)
    ensures Truthy(Some(r))
    ensures Truthy(v) ==> Some(r) == v
    ensures !Truthy(v) ==> r == Str(fallback)
    requires fallback != []
  {
    if Truthy(v) then v.value else Str(fallback)
  }

  /** What `await request.json()` yields: a value, or a failure to parse the body. */
  datatype RequestBody = Unreadable | Body(json: Json)

  /**
   * The final statuses a server-side `fetch` response carries: the Fetch
   * standard allows up to 999, and informational 1xx answers are not
   * returned as responses.
   */
  type HttpStatus = s: int | 200 <= s <= 999 witness 200

  /**
   * What the upstream call yields: `fetch` rejects (`Unreachable`), or a
   * response with its status line, the text its `text()` reads, and the
   * value its `json()` parses (`None` when that throws).
   */
  datatype Upstream =
    | Unreachable
    | Reply(status: HttpStatus, statusText: string, text: string, json: Option<Json>)

  /** `response.ok`. */
  predicate Ok(status: int)
  {
    200 <= status <= 299
  }

  /** The forwarded payload: the three fields and no other. */
  datatype Payload = Payload(message: Json, context: Json, sessionId: Json)

  /** `JSON.stringify(payload)` as a JSON value. */
  function PayloadJson(p: Payload): Json
  {
    Obj(map["message" := p.message, "context" := p.context, "sessionId" := p.sessionId])
  }

  /** A response: status, headers and, unless there is none, a JSON body. */
  datatype Response = Response(status: int, headers: map<string, string>, body: Option<Json>)

  /** The header `NextResponse.json` sets. */
  const JsonHeaders: map<string, string> := map["content-type" := "application/json"]

  /** Statuses whose responses must not have a body. */
  predicate IsNullBodyStatus(status: int)
  {
    status == 101 || status == 103 || status == 204 || status == 205 || status == 304
  }

  /**
   * `NextResponse.json(data, {status})`, or `None` where it throws: for a
   * status outside 200..599 and for a status that cannot carry a body.
   */
  function JsonResponse(data: Json, status: int): (r: Option<Response>)
    ensures r.Some? <==> 200 <= status <= 599 && !IsNullBodyStatus(status)
    ensures r.Some? ==> r.value == Response(status, JsonHeaders, Some(data))
  {
    if status < 200 || status > 599 || IsNullBodyStatus(status) then None
    else Some(Response(status, JsonHeaders, Some(data)))
  }

  // ---------------------------------------------------------------------
  // Status codes in messages

  function Digit(d: nat): char
    requires d < 10
  {
    "0123456789"[d]
  }

  predicate IsDigit(c: char)
  {
    '0' <= c <= '9'
  }

  function DigitValue(c: char): nat
    requires IsDigit(c)
  {
    c as int - '0' as int
  }

  /** `${n}` for a non-negative integer: its decimal digits, without leading zeros. */
  function Decimal(n: nat): (s: string)
    ensures s != [] && forall i :: 0 <= i < |s| ==> IsDigit(s[i])
    ensures s[0] == '0' <==> n == 0
    decreases n
  {
    if n < 10 then [Digit(n)] else Decimal(n / 10) + [Digit(n % 10)]
  }

  /** The number a string of decimal digits denotes. */
  function ParseDecimal(s: string): nat
    requires forall i :: 0 <= i < |s| ==> IsDigit(s[i])
  {
    if s == [] then 0 else 10 * ParseDecimal(s[..|s| - 1]) + DigitValue(s[|s| - 1])
  }

  /** Reading the digits back gives the number. */
  lemma {:induction false} DecimalRoundTrip(n: nat)
    ensures ParseDecimal(Decimal(n)) == n
    decreases n
  {
    if n >= 10 {
      var s := Decimal(n);
      DecimalRoundTrip(n / 10);
      assert s[..|s| - 1] == Decimal(n / 10);
    }
  }

  // ---------------------------------------------------------------------
  // The responses

  const RequiredMessage: string := "Message is required"
  const RateLimitMessage: string := "Sorry, you reached the limit. Please come back in one hour."
  const ErrorPrefix: string := "Rukh API error: "

  /** `Rukh API error: ${status} ${statusText}`. */
  function UpstreamErrorMessage(status: nat, statusText: string): string
  {
    ErrorPrefix + Decimal(status) + " " + statusText
  }

  /** The catch-all answer to an exception (its `details` and `timestamp` are not modelled). */
  const InternalError: Response :=
    Response(500, JsonHeaders, Some(Obj(map["message" := Str("Internal server error"), "type" := Str("INTERNAL_ERROR")])))

  /** A response built inside the `try`: where building it throws, the catch answers. */
  function OrInternal(r: Option<Response>): Response
  {
    if r.Some? then r.value else InternalError
  }

  /** The answer to a missing message: the received body is echoed back. */
  function MissingMessage(body: Json): Response
  {
    OrInternal(JsonResponse(Obj(map["message" := Str(RequiredMessage), "receivedBody" := body]), 400))
  }

  /** The answer to upstream status 429, whatever the upstream said. */
  const RateLimited: Response :=
    Response(429, JsonHeaders, Some(Obj(map["message" := Str(RateLimitMessage), "error" := Str("RATE_LIMIT_EXCEEDED"), "status" := Num(429.0)])))

  /** The answer to any other non-ok upstream status: that status, with the upstream's text as `error`. */
  function UpstreamFailed(status: HttpStatus, statusText: string, text: string): Response
  {
    OrInternal(JsonResponse(Obj(map["message" := Str(UpstreamErrorMessage(status, statusText)), "error" := Str(text)]), status))
  }

  /** The outcome of one call. */
  datatype Handled = Handled(forwarded: Option<Payload>, response: Response)

  /**
   * The answer once the payload is forwarded: it always has a JSON body and
   * a status a response can carry, and it is 2xx exactly when the upstream
   * answered ok with JSON.
   */
  function Relay(upstream: Upstream): (r: Response)
    ensures r.body.Some? && 200 <= r.status <= 599 && !IsNullBodyStatus(r.status)
    ensures Ok(r.status) <==> upstream.Reply? && Ok(upstream.status) && upstream.json.Some?
  {
    match upstream
    case Unreachable => InternalError
    case Reply(status, statusText, text, json) =>
      if !Ok(status) then
        if status == 429 then RateLimited else UpstreamFailed(status, statusText, text)
      else if json.None? then InternalError
      else OrInternal(JsonResponse(json.value, 200))
  }

  /** `POST /api/ask`. */
  function Post(request: RequestBody, upstream: Upstream): (h: Handled)
    ensures h.forwarded.Some? <==> HasMessage(request)
  {
    match request
    case Unreadable => Handled(None, InternalError)
    case Body(body) =>
      if body.Null? then
        Handled(None, InternalError)
      else if !Truthy(Prop(body, "message")) then
        Handled(None, MissingMessage(body))
      else
        var payload := Payload(Prop(body, "message").value, OrElse(Prop(body, "context"), "rukh"), OrElse(Prop(body, "sessionId"), "12345"));
        Handled(Some(payload), Relay(upstream))
  }

  /** `OPTIONS /api/ask`: the CORS preflight answer. */
  function Options(): (r: Response)
    ensures r.status == 200 && r.body.None?
    ensures "Access-Control-Allow-Origin" in r.headers && r.headers["Access-Control-Allow-Origin"] == "*"
    ensures "Access-Control-Allow-Methods" in r.headers && r.headers["Access-Control-Allow-Methods"] == "POST, OPTIONS"
    ensures "Access-Control-Allow-Headers" in r.headers && r.headers["Access-Control-Allow-Headers"] == "Content-Type"
    ensures r.headers.Keys == {"Access-Control-Allow-Origin", "Access-Control-Allow-Methods", "Access-Control-Allow-Headers"}
    ensures Contains(r.headers["Access-Control-Allow-Methods"], "POST") && Contains(r.headers["Access-Control-Allow-Methods"], "OPTIONS")
  {
    var r := Response(200, map[
      "Access-Control-Allow-Origin" := "*",
      "Access-Control-Allow-Methods" := "POST, OPTIONS",
      "Access-Control-Allow-Headers" := "Content-Type"], None);
    assert At(r.headers["Access-Control-Allow-Methods"], 0, "POST");
    assert At(r.headers["Access-Control-Allow-Methods"], 6, "OPTIONS");
    r
  }

  // ---------------------------------------------------------------------
  // What the route promises

  /** The request names a message: it parsed, is not null, and its `message` is truthy. */
  predicate HasMessage(request: RequestBody)
  {
    request.Body? && !request.json.Null? && Truthy(Prop(request.json, "message"))
  }

  /** Without a message nothing is forwarded, so the answer does not depend on the upstream. */
  lemma UnforwardedIgnoresUpstream(request: RequestBody, u1: Upstream, u2: Upstream)
    requires !HasMessage(request)
    ensures Post(request, u1) == Post(request, u2)
  {
  }

  /** A parsed, non-null body whose message is falsy gets 400 and its body echoed back. */
  lemma MissingMessageRejected(body: Json, upstream: Upstream)
    requires !body.Null? && !Truthy(Prop(body, "message"))
    ensures var h := Post(Body(body), upstream);
      && h.forwarded.None?
      && h.response.status == 400
      && h.response.body == Some(Obj(map["message" := Str(RequiredMessage), "receivedBody" := body]))
  {
  }

  /**
   * The forwarded payload carries the body's message, its context or `rukh`,
   * its session id or `12345`; all three are truthy, and nothing else of the
   * body is sent.
   */
  lemma PayloadDefaults(body: Json, upstream: Upstream)
    requires HasMessage(Body(body))
    ensures var p := Post(Body(body), upstream).forwarded;
      && p.Some?
      && Some(p.value.message) == Prop(body, "message")
      && (if Truthy(Prop(body, "context")) then Some(p.value.context) == Prop(body, "context") else p.value.context == Str("rukh"))
      && (if Truthy(Prop(body, "sessionId")) then Some(p.value.sessionId) == Prop(body, "sessionId") else p.value.sessionId == Str("12345"))
      && Truthy(Some(p.value.message)) && Truthy(Some(p.value.context)) && Truthy(Some(p.value.sessionId))
      && PayloadJson(p.value).fields.Keys == {"message", "context", "sessionId"}
  {
  }

  /**
   * Upstream 429 gets 429 and exactly the fixed body (message, error code and
   * status), whatever the upstream body or status text.
   */
  lemma RateLimitRewritten(request: RequestBody, statusText: string, text: string, json: Option<Json>)
    requires HasMessage(request)
    ensures var r := Post(request, Reply(429, statusText, text, json)).response;
      && r.status == 429
      && r.body == Some(Obj(map[
           "message" := Str(RateLimitMessage),
           "error" := Str("RATE_LIMIT_EXCEEDED"),
           "status" := Num(429.0)]))
  {
  }

  /**
   * Any other non-ok upstream status is passed on with the upstream's text
   * as `error` and a message naming the status and its text; only 304,
   * which cannot carry a body, and a status above 599, which a response
   * cannot carry, end in the catch-all 500 instead.
   */
  lemma UpstreamErrorPassedOn(request: RequestBody, status: HttpStatus, statusText: string, text: string, json: Option<Json>)
    requires HasMessage(request) && !Ok(status) && status != 429
    ensures var r := Post(request, Reply(status, statusText, text, json)).response;
      if status == 304 || status > 599 then r == InternalError
      else
        && r.status == status
        && r.body == Some(Obj(map["message" := Str(UpstreamErrorMessage(status, statusText)), "error" := Str(text)]))
  {
  }

  /** The message of a passed-on upstream error names the status, which can be read back from it, and then the status text. */
  lemma StatusInErrorMessage(status: HttpStatus, statusText: string)
    ensures var m := UpstreamErrorMessage(status, statusText);
      var k := |Decimal(status)|;
      && |ErrorPrefix| + k < |m|
      && m[..|ErrorPrefix|] == ErrorPrefix
      && (forall i :: |ErrorPrefix| <= i < |ErrorPrefix| + k ==> IsDigit(m[i]))
      && ParseDecimal(m[|ErrorPrefix|..|ErrorPrefix| + k]) == status
      && m[|ErrorPrefix| + k..] == " " + statusText
  {
    var m := UpstreamErrorMessage(status, statusText);
    var k := |Decimal(status)|;
    assert m[|ErrorPrefix|..|ErrorPrefix| + k] == Decimal(status);
    DecimalRoundTrip(status);
  }

  /** An ok upstream answer that parses is relayed unchanged with status 200. */
  lemma SuccessRelayed(request: RequestBody, status: HttpStatus, statusText: string, text: string, data: Json)
    requires HasMessage(request) && Ok(status)
    ensures Post(request, Reply(status, statusText, text, Some(data))).response == Response(200, JsonHeaders, Some(data))
  {
  }

  /**
   * Every exception ends in the catch-all 500: an unparsable request body,
   * a null body, an unreachable upstream, an ok upstream answer that does
   * not parse.
   */
  lemma ExceptionsAnswer500(request: RequestBody, upstream: Upstream)
    requires || request.Unreadable?
             || (request.Body? && request.json.Null?)
             || (HasMessage(request) && upstream.Unreachable?)
             || (HasMessage(request) && upstream.Reply? && Ok(upstream.status) && upstream.json.None?)
    ensures Post(request, upstream).response == InternalError
  {
  }

  /**
   * Every answer has a JSON body and a status a response can carry, and its
   * status is 2xx exactly when the upstream answered ok with JSON.
   */
  lemma AnswerWellFormed(request: RequestBody, upstream: Upstream)
    ensures var r := Post(request, upstream).response;
      && r.body.Some?
      && 200 <= r.status <= 599 && !IsNullBodyStatus(r.status)
      && (Ok(r.status) <==> HasMessage(request) && upstream.Reply? && Ok(upstream.status) && upstream.json.Some?)
  {
  }
}

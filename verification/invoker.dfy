/** `Invoker.invoke`: one call of the user handler, from the framework request to
    the response status, headers and the value the route serialises as the body. */
module Invoker {
  import opened Wrappers
  import opened Json
  import opened Request
  import opened JavaNumbers

  const RequestIdHeader: string := "x-binaris-request-id"
  const DurationHeader: string := "x-binaris-bolt-duration-usecs"
  const JsonContentType: string := "application/json"

  /** The status of a response nobody has set one on. */
  const DefaultStatus: int := 200
  const ErrorStatus: int := 500

  /** What resolving and running the handler amounts to.  `Failure` is any
      `Exception`: one thrown by the handler, and also `ClassNotFoundException`,
      `InstantiationException`, `IllegalAccessException` or `ClassCastException`
      while loading and instantiating the handler class.  `Fatal` is a `Throwable`
      that is not an `Exception` (a Java `Error`), which `catch (Exception e)` does
      not catch: one thrown by the handler, and also `ExceptionInInitializerError`
      or `NoClassDefFoundError` while loading or instantiating the class. */
  datatype Outcome =
    | Success(value: Value)
    | Failure(detailMessage: string, stackTrace: string)
    | Fatal

  /** The handler: given the parsed body (or none) and the request record. */
  type Handler = (Option<Value>, BinarisRequest) -> Outcome

  /** The parts of the framework's response the runtime sets.  `contentType` is
      `None` until `res.type(...)` is called. */
  datatype Response = Response(status: int, contentType: Option<string>, headers: map<string, string>)

  const FreshResponse: Response := Response(DefaultStatus, None, map[])

  /** How `invoke` ends: returning a value for the route to serialise, or letting
      a throwable propagate. */
  datatype Exit = Returned(body: Value) | Thrown

  /** The arguments the handler was called with. */
  datatype HandlerCall = HandlerCall(payload: Option<Value>, request: BinarisRequest)

  /** Everything one call of `invoke` produces: the response as left behind, how the
      call ended, and the handler call it made, if any. */
  datatype Invocation = Invocation(response: Response, exit: Exit, call: Option<HandlerCall>)

  /** `{"errorCode": "ERR_NO_REQ_ID"}` */
  function NoRequestIdBody(): (r: Value)
    ensures r.JObject? && r.fields.Keys == {"errorCode"}
    ensures r.fields["errorCode"] == JString("ERR_NO_REQ_ID")
  {
    StringObject(map["errorCode" := "ERR_NO_REQ_ID"])
  }

  /** `{"stackTrace": ..., "detailMessage": ...}` */
  function FailureBody(detailMessage: string, stackTrace: string): (r: Value)
    ensures r.JObject? && r.fields.Keys == {"stackTrace", "detailMessage"}
    ensures r.fields["stackTrace"] == JString(stackTrace)
    ensures r.fields["detailMessage"] == JString(detailMessage)
  {
    StringObject(map["stackTrace" := stackTrace, "detailMessage" := detailMessage])
  }

  /** One call of `invoke`.  `parse` is the JSON parser, `handler` the resolved user
      code and `elapsedNanos` the difference of the two `System.nanoTime` readings
      around the handler call. */
  function Invoke(raw: RawRequest, parse: string -> ParseResult, handler: Handler, elapsedNanos: Int64)
    : (inv: Invocation)
    // The content type is JSON on every path, the early rejection included.
    ensures inv.response.contentType == Some(JsonContentType)
    // A request without an id is refused before the handler or the parser is used,
    // and before the block that sets the id and duration headers.
    ensures RequestIdHeader !in raw.headers ==>
      && inv.call == None
      && inv.response.status == ErrorStatus
      && inv.response.headers == map[]
      && inv.exit == Returned(NoRequestIdBody())
    // With an id, the handler is called once, with the parse result (`None` when
    // the body did not parse) and the normalised request carrying that id, and the
    // id is echoed back however the call ends.
    ensures RequestIdHeader in raw.headers ==>
      var id := raw.headers[RequestIdHeader];
      && inv.call == Some(HandlerCall(TryDeserialize(parse, raw.body), Normalize(raw, id)))
      && RequestIdHeader in inv.response.headers
      && inv.response.headers[RequestIdHeader] == id
    // On success the status is left alone, the body is the handler's value, and the
    // duration header holds the elapsed time in whole microseconds.
    ensures RequestIdHeader in raw.headers ==>
      var outcome := handler(TryDeserialize(parse, raw.body), Normalize(raw, raw.headers[RequestIdHeader]));
      outcome.Success? ==>
        && inv.response.status == DefaultStatus
        && inv.exit == Returned(outcome.value)
        && inv.response.headers.Keys == {RequestIdHeader, DurationHeader}
        && inv.response.headers[DurationHeader] == LongToString(MicrosFromNanos(elapsedNanos))
    // On an exception the status is 500, the body carries exactly the trace and the
    // message, and no duration header is set.
    ensures RequestIdHeader in raw.headers ==>
      var outcome := handler(TryDeserialize(parse, raw.body), Normalize(raw, raw.headers[RequestIdHeader]));
      outcome.Failure? ==>
        && inv.response.status == ErrorStatus
        && inv.exit == Returned(FailureBody(outcome.detailMessage, outcome.stackTrace))
        && inv.response.headers.Keys == {RequestIdHeader}
    // A throwable that is not an `Exception` escapes with only the id header set.
    ensures RequestIdHeader in raw.headers ==>
      var outcome := handler(TryDeserialize(parse, raw.body), Normalize(raw, raw.headers[RequestIdHeader]));
      outcome.Fatal? ==>
        && inv.response.status == DefaultStatus
        && inv.exit == Thrown
        && inv.response.headers.Keys == {RequestIdHeader}
  {
    var res := FreshResponse.(contentType := Some(JsonContentType));
    if RequestIdHeader !in raw.headers then
      Invocation(res.(status := ErrorStatus), Returned(NoRequestIdBody()), None)
    else
      var id := raw.headers[RequestIdHeader];
      var request := Normalize(raw, id);
      var payload := TryDeserialize(parse, raw.body);
      var (tried, exit) :=
        match handler(payload, request)
        case Success(v) =>
          (res.(headers := res.headers[DurationHeader := LongToString(MicrosFromNanos(elapsedNanos))]),
           Returned(v))
        case Failure(message, trace) =>
          (res.(status := ErrorStatus), Returned(FailureBody(message, trace)))
        case Fatal =>
          (res, Thrown);
      // the `finally` block
      var finished := tried.(headers := tried.headers[RequestIdHeader := id]);
      Invocation(finished, exit, Some(HandlerCall(payload, request)))
  }

  /** Without an id the result does not depend on the parser, the handler or the
      clock: none of them is consulted. */
  lemma RejectionIgnoresHandler(
    raw: RawRequest,
    parse1: string -> ParseResult, handler1: Handler, elapsed1: Int64,
    parse2: string -> ParseResult, handler2: Handler, elapsed2: Int64)
    requires RequestIdHeader !in raw.headers
    ensures Invoke(raw, parse1, handler1, elapsed1) == Invoke(raw, parse2, handler2, elapsed2)
  {
  }

  /** A body the parser rejects, or an empty one, still reaches the handler, as the
      "no parsed body" marker. */
  lemma UnparsedBodyStillHandled(raw: RawRequest, parse: string -> ParseResult, handler: Handler, elapsed: Int64)
    requires RequestIdHeader in raw.headers
    requires !parse(raw.body).Parsed?
    ensures Invoke(raw, parse, handler, elapsed).call.Some?
    ensures Invoke(raw, parse, handler, elapsed).call.value.payload == None
  {
  }

  /** On success with a non-negative elapsed time, the duration header reads back as
      a non-negative decimal integer: the elapsed nanoseconds truncated to whole
      microseconds. */
  lemma DurationHeaderReadable(raw: RawRequest, parse: string -> ParseResult, handler: Handler, elapsed: Int64)
    requires RequestIdHeader in raw.headers
    requires handler(TryDeserialize(parse, raw.body), Normalize(raw, raw.headers[RequestIdHeader])).Success?
    requires 0 <= elapsed
    ensures var headers := Invoke(raw, parse, handler, elapsed).response.headers;
      && DurationHeader in headers
      && exists us: nat :: ParseDecimal(headers[DurationHeader]) == Some(us) && 1000 * us <= elapsed < 1000 * us + 1000
  {
    var us := MicrosFromNanos(elapsed);
    LongToStringRoundTrip(us);
    assert ParseDecimal(LongToString(us)) == Some(us as int);
  }
}

/** The two process-wide counters, the route that brackets every invocation with
    them, and the health query that reports them.  The counters are separate atomics
    in the source; here a route entry's two increments, a route exit's decrement and
    a health query's two reads are each one sequential step on a state value. */
module Counters {
  import opened Wrappers
  import opened Json
  import opened Request
  import opened JavaNumbers
  import opened Invoker

  /** `request_count` and `concurrency`, each a Java `int`. */
  datatype CounterState = CounterState(requestCount: Int32, concurrency: Int32)

  /** Both counters start at zero when the process starts. */
  const Initial: CounterState := CounterState(0, 0)

  /** Entering the route: `request_count.incrementAndGet()`, then
      `concurrency.incrementAndGet()`. */
  function Enter(c: CounterState): (r: CounterState)
    ensures r.requestCount == Wrap(c.requestCount + 1)
    ensures r.concurrency == Wrap(c.concurrency + 1)
  {
    CounterState(Inc(c.requestCount), Inc(c.concurrency))
  }

  /** Leaving the route, on every exit path: `concurrency.decrementAndGet()`. */
  function Leave(c: CounterState): (r: CounterState)
    ensures r.requestCount == c.requestCount
    ensures r.concurrency == Wrap(c.concurrency - 1)
  {
    c.(concurrency := Dec(c.concurrency))
  }

  /** What one routed call leaves behind: the counters and the invocation. */
  datatype RouteResult = RouteResult(counters: CounterState, invocation: Invocation)

  /** The route lambda: increment, increment, invoke, and decrement in `finally`,
      which runs whether `invoke` returns or throws. */
  function Route(c: CounterState, raw: RawRequest, parse: string -> ParseResult, handler: Handler, elapsed: Int64)
    : (r: RouteResult)
    // Every routed call is counted once, a missing id or a failing handler included.
    ensures c.requestCount < IntMax ==> r.counters.requestCount == c.requestCount + 1
    ensures c.requestCount == IntMax ==> r.counters.requestCount == IntMin
    // Once the call is over, the number in flight is back where it was.
    ensures r.counters.concurrency == c.concurrency
    ensures r.invocation == Invoke(raw, parse, handler, elapsed)
  {
    var entered := Enter(c);
    var invocation := Invoke(raw, parse, handler, elapsed);
    RouteResult(Leave(entered), invocation)
  }

  /** The `Health` record serialised by the health route. */
  datatype Health = Health(concurrency: Int32, request_count: Int32)

  /** `{"concurrency": ..., "request_count": ...}` */
  function HealthBody(h: Health): (r: Value)
    ensures r.JObject? && r.fields.Keys == {"concurrency", "request_count"}
    ensures r.fields["concurrency"] == JNumber(LongToString(h.concurrency))
    ensures r.fields["request_count"] == JNumber(LongToString(h.request_count))
  {
    JObject(map["concurrency" := JNumber(LongToString(h.concurrency)), "request_count" := JNumber(LongToString(h.request_count))])
  }

  datatype HealthResult = HealthResult(counters: CounterState, response: Response, body: Value)

  /** The `/_healthy` route: reads both counters and changes neither; it does not
      go through the invocation route, so it is not counted. */
  function HealthQuery(c: CounterState): (r: HealthResult)
    ensures r.counters == c
    ensures r.response == Response(DefaultStatus, Some(JsonContentType), map[])
    ensures r.body.JObject? && r.body.fields.Keys == {"concurrency", "request_count"}
    ensures r.body.fields["concurrency"] == JNumber(LongToString(c.concurrency))
    ensures r.body.fields["request_count"] == JNumber(LongToString(c.requestCount))
  {
    var health := Health(c.concurrency, c.requestCount);
    HealthResult(c, FreshResponse.(contentType := Some(JsonContentType)), HealthBody(health))
  }

  /** One step on the counters: a route entered, a route left, or a health query.
      Steps of concurrent calls may interleave, but each step here is taken as
      indivisible: a route entry's two increments, and a health query's two reads,
      are each treated as one step, although the source performs them as separate
      atomic operations that another thread may come between. */
  datatype Event = Entered | Left | Queried

  function Step(c: CounterState, e: Event): CounterState {
    match e
    case Entered => Enter(c)
    case Left => Leave(c)
    case Queried => c  // `HealthQuery` leaves both counters as they are
  }

  /** The counters after a sequence of events. */
  function Run(c: CounterState, events: seq<Event>): CounterState {
    if |events| == 0 then c else Step(Run(c, events[..|events| - 1]), events[|events| - 1])
  }

  function Count(events: seq<Event>, e: Event): nat {
    if |events| == 0 then 0
    else Count(events[..|events| - 1], e) + (if events[|events| - 1] == e then 1 else 0)
  }

  /** Every route left had been entered before: in each prefix, no more `Left` than
      `Entered`.  The `finally` block guarantees this of every trace. */
  predicate Bracketed(events: seq<Event>) {
    forall k :: 0 <= k <= |events| ==> Count(events[..k], Left) <= Count(events[..k], Entered)
  }

  /** Appending one event is one more step. */
  lemma RunSnoc(c: CounterState, events: seq<Event>, e: Event)
    ensures Run(c, events + [e]) == Step(Run(c, events), e)
    ensures Count(events + [e], Entered) == Count(events, Entered) + (if e == Entered then 1 else 0)
    ensures Count(events + [e], Left) == Count(events, Left) + (if e == Left then 1 else 0)
  {
    assert (events + [e])[..|events|] == events;
  }

  /** One step moves the unwrapped totals by the step's own increments. */
  lemma StepCounts(before: CounterState, e: Event, requests: int, inFlight: int)
    requires before.requestCount == Wrap(requests)
    requires before.concurrency == Wrap(inFlight)
    ensures Step(before, e).requestCount == Wrap(requests + (if e == Entered then 1 else 0))
    ensures Step(before, e).concurrency
         == Wrap(inFlight + (if e == Entered then 1 else 0) - (if e == Left then 1 else 0))
  {
    match e
    case Entered =>
      WrapAdd(requests, 1);
      WrapAdd(inFlight, 1);
    case Left =>
      WrapAdd(inFlight, -1);
    case Queried =>
  }

  /** After any interleaving, `request_count` has grown by the number of routes
      entered and `concurrency` by the number entered minus the number left, both
      modulo the 32-bit range. */
  lemma {:induction false} RunCounts(c: CounterState, events: seq<Event>)
    ensures Run(c, events).requestCount == Wrap(c.requestCount + Count(events, Entered))
    ensures Run(c, events).concurrency
         == Wrap(c.concurrency + Count(events, Entered) - Count(events, Left))
  {
    if |events| == 0 {
      return;
    }
    var init, e := events[..|events| - 1], events[|events| - 1];
    assert events == init + [e];
    RunCounts(c, init);
    RunSnoc(c, init, e);
    StepCounts(Run(c, init), e,
      c.requestCount + Count(init, Entered),
      c.concurrency + Count(init, Entered) - Count(init, Left));
  }

  /** From process start, as long as fewer than 2^31 routes have been entered,
      `request_count` is exactly the number of routes entered, and `concurrency` is
      the number still in flight, never negative. */
  lemma InFlightFromStart(events: seq<Event>)
    requires Bracketed(events)
    requires Count(events, Entered) <= IntMax
    ensures Run(Initial, events).requestCount == Count(events, Entered)
    ensures Run(Initial, events).concurrency == Count(events, Entered) - Count(events, Left)
    ensures 0 <= Run(Initial, events).concurrency
  {
    RunCounts(Initial, events);
    assert events[..|events|] == events;
  }

  /** `request_count` never decreases while it stays below `Integer.MAX_VALUE`. */
  lemma RequestCountMonotone(c: CounterState, events: seq<Event>)
    requires c.requestCount + Count(events, Entered) <= IntMax
    ensures c.requestCount <= Run(c, events).requestCount
  {
    RunCounts(c, events);
  }

  /** One routed call, seen by the counters, is an `Entered` step followed by a
      `Left` step. */
  lemma RouteIsEnterThenLeave(c: CounterState, raw: RawRequest, parse: string -> ParseResult, handler: Handler, elapsed: Int64)
    ensures Route(c, raw, parse, handler, elapsed).counters == Run(c, [Entered, Left])
  {
    RunSnoc(c, [], Entered);
    RunSnoc(c, [Entered], Left);
  }

  /** At `Integer.MAX_VALUE` the next routed call wraps `request_count` to
      `Integer.MIN_VALUE`: monotonicity holds only below it. */
  lemma RequestCountWraps(raw: RawRequest, parse: string -> ParseResult, handler: Handler, elapsed: Int64)
    ensures Route(CounterState(IntMax, 0), raw, parse, handler, elapsed).counters == CounterState(IntMin, 0)
  {
  }

  /** A health query after a trace from process start (its two reads taken
      together, see `Event`) reports the number of routes entered as
      `request_count` and the number in flight as `concurrency` (five entered and
      four finished: `{"concurrency": 1, "request_count": 5}`). */
  lemma HealthReportsTrace(events: seq<Event>)
    requires Bracketed(events)
    requires Count(events, Entered) <= IntMax
    ensures HealthQuery(Run(Initial, events)).body
         == HealthBody(Health(Count(events, Entered) - Count(events, Left), Count(events, Entered)))
  {
    InFlightFromStart(events);
  }
}

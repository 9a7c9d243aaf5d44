# Binaris Java 8 function runtime — invocation pipeline in Dafny

This project models the request path of the Binaris Java runtime (`com.binaris.Runtime`):
an HTTP route that counts the call, reads the `x-binaris-request-id` header, builds the
`BinarisRequest` record handed to user code (stripping the `/v1/run` prefix from the path),
parses the body as JSON, runs the user handler, and turns its value or its exception into
the response; the `/_healthy` route that reports the two counters; and `requiredEnvar`,
the environment lookup used at startup.

Modules, following the source's pieces:

- `Wrappers` — `Option` (for Java `null`) and `Result` (for thrown exceptions).
- `Json` — an abstract JSON value (numbers kept as their decimal text), the abstract parser's three outcomes and `tryDeserialize`.
- `JavaNumbers` — Java `int` wrap-around (for `AtomicInteger`), truncating `long`
  division by 1000 and `Long.toString`, with a decimal reader to read it back.
- `Request` — the framework request, the `BinarisRequest` record, and path stripping.
- `Invoker` — `Invoker.invoke` as a total function of the request, the parser, the
  handler and the elapsed nanoseconds.
- `Counters` — the `request_count`/`concurrency` pair, the route's bracket around
  `invoke`, the health query, and traces of interleaved counter operations.
- `Config` — `requiredEnvar` and `configure`.

External pieces are parameters: the JSON parser is a function from body text to
`Parsed(value) | EmptyDocument | SyntaxError`; the handler is a function from the parsed
body and the request record to `Success(value) | Failure(detailMessage, stackTrace) | Fatal`,
where `Failure` is any `Exception` (thrown by the handler, or `ClassNotFoundException`,
`InstantiationException`, `IllegalAccessException` or `ClassCastException` while loading
and instantiating the handler class) and `Fatal` is a `Throwable` that is not an
`Exception` (a Java `Error`, thrown by the handler or, as `ExceptionInInitializerError`
or `NoClassDefFoundError`, while loading the class), which `catch (Exception e)` lets
through; `Integer.parseInt` is a parameter of `configure`; the
time between the two `System.nanoTime` readings is a `long` input.

## Behaviour worth knowing

The model states these facts about the code:

- the duration header is set only when the handler returns; an exception or an `Error` skips it;
- a request without an id still passes through the route's counter bracket, so it adds
  one to `request_count` and leaves `concurrency` where it was;
- the id check is a `null` check only, so an empty id is accepted and echoed;
- stripping the path prefix is not idempotent: `/v1/run/v1/run` becomes `/v1/run`;
- a handler class whose static initialiser throws surfaces as an `Error`, so it gets no
  500 envelope from `invoke`, only the id header.

## Model

| member | source | states |
|---|---|---|
| `Json.TryDeserialize` | src/main/java/com/binaris/Runtime.java:31-37 | a parse never fails: the result is a value exactly when the parser produced one, and "no parsed body" (distinct from JSON `null`) for an empty document or a syntax error |
| `Request.StripRunPrefix` | src/main/java/com/binaris/Runtime.java:62 | when the path starts with `/v1/run`, prefix plus result is the path; otherwise the path is unchanged |
| `Request.StripTwice` | src/main/java/com/binaris/Runtime.java:62 | stripping a second time changes nothing exactly when the once-stripped path does not start with the prefix |
| `Request.StripNotIdempotent` | src/main/java/com/binaris/Runtime.java:62 | only the leading occurrence is removed: `/v1/run/v1/run` becomes `/v1/run`, which strips further to the empty path |
| `Request.StripRoutedPaths` | src/main/java/com/binaris/Runtime.java:62 | the routed paths `/v1/run` and `/v1/run/<rest>` become the empty path and `/<rest>` |
| `Request.Normalize` | src/main/java/com/binaris/Runtime.java:58-67 | the handler's record carries the id, body, method, headers and query of the request, and the path with the prefix stripped |
| `Invoker.Invoke` | src/main/java/com/binaris/Runtime.java:47-87 | content type JSON on every path; no id: status 500, body exactly `{errorCode: ERR_NO_REQ_ID}`, no headers, no handler call; with an id: one handler call with the parse result and the normalised request, and the id echoed; success: default status, the handler's value as body, headers exactly id and duration = elapsed/1000 truncated; exception: status 500, body exactly `stackTrace` and `detailMessage`, headers exactly the id; an `Error`: propagates with only the id header |
| `Invoker.RejectionIgnoresHandler` | src/main/java/com/binaris/Runtime.java:51-56 | without an id the result does not depend on the parser, the handler or the clock |
| `Invoker.UnparsedBodyStillHandled` | src/main/java/com/binaris/Runtime.java:69-75 | a body the parser rejects still reaches the handler, as "no parsed body" |
| `Invoker.DurationHeaderReadable` | src/main/java/com/binaris/Runtime.java:76-77 | on success with non-negative elapsed time the duration header reads back as a natural number `us` with `1000*us <= elapsed < 1000*us + 1000` |
| `JavaNumbers.MicrosFromNanos` | src/main/java/com/binaris/Runtime.java:77 | Java `long` division by 1000 truncates toward zero: bounds on both signs |
| `JavaNumbers.LongToString` | src/main/java/com/binaris/Runtime.java:77 | `Long.toString` gives digits, with a leading `-` exactly for a negative value and no leading zero except in `0` itself |
| `JavaNumbers.LongToStringRoundTrip` | src/main/java/com/binaris/Runtime.java:77 | the decimal text of every `long` reads back as the same value |
| `JavaNumbers.Inc` | src/main/java/com/binaris/Runtime.java:169-170 | `incrementAndGet` adds one, wrapping from `Integer.MAX_VALUE` to `Integer.MIN_VALUE` |
| `JavaNumbers.Dec` | src/main/java/com/binaris/Runtime.java:176 | `decrementAndGet` subtracts one, wrapping from `Integer.MIN_VALUE` to `Integer.MAX_VALUE` |
| `JavaNumbers.DecInc` | src/main/java/com/binaris/Runtime.java:170-176 | a decrement undoes an increment for every `int` |
| `Counters.Enter` | src/main/java/com/binaris/Runtime.java:169-170 | entering the route adds one (wrapping) to both counters |
| `Counters.Leave` | src/main/java/com/binaris/Runtime.java:175-177 | leaving the route subtracts one (wrapping) from `concurrency` only |
| `Counters.Route` | src/main/java/com/binaris/Runtime.java:168-178 | every routed call, whatever its outcome, adds exactly one to `request_count` (wrapping at the maximum) and leaves `concurrency` at its prior value; its invocation is `invoke`'s |
| `Counters.HealthQuery` | src/main/java/com/binaris/Runtime.java:187-193 | the health route leaves both counters unchanged, answers with default status and JSON content type, and its body has exactly `concurrency` and `request_count` holding the current values as decimal numbers |
| `Counters.RunCounts` | src/main/java/com/binaris/Runtime.java:169-177 | after any interleaving of counter steps (an entry's two increments and a query's two reads each taken as one step), `request_count` grew by the routes entered and `concurrency` by entered minus left, modulo 2^32 |
| `Counters.InFlightFromStart` | src/main/java/com/binaris/Runtime.java:118-119 | from process start, with every leave preceded by its enter and fewer than 2^31 calls, `request_count` is the number of calls and `concurrency` the number in flight, never negative |
| `Counters.RequestCountMonotone` | src/main/java/com/binaris/Runtime.java:169 | `request_count` never decreases while it stays below `Integer.MAX_VALUE` |
| `Counters.RouteIsEnterThenLeave` | src/main/java/com/binaris/Runtime.java:168-178 | one routed call acts on the counters as an enter step followed by a leave step |
| `Counters.RequestCountWraps` | src/main/java/com/binaris/Runtime.java:169 | a call at `request_count = Integer.MAX_VALUE` wraps it to `Integer.MIN_VALUE` |
| `Counters.HealthReportsTrace` | src/main/java/com/binaris/Runtime.java:187-193 | after any trace of such steps from process start, the health body is `{concurrency: entered - left, request_count: entered}` (so five entered and four finished give `{1, 5}`) |
| `Config.RequiredEnvar` | src/main/java/com/binaris/Runtime.java:128-137 | a set variable's value whatever the default; else the default if given; else the error `Expecting envar <name>` |
| `Config.RequiredEnvarFailsIff` | src/main/java/com/binaris/Runtime.java:128-137 | the lookup fails exactly when the variable is unset and there is no default; for a set variable the default plays no part |
| `Config.Configure` | src/main/java/com/binaris/Runtime.java:141-146 | startup succeeds exactly when `BOLT_PORT` (default `80`) parses as an `int` and `BN_FUNCTION` and `BN_ENTRYPOINT` are set; otherwise it reports the first failure in that order (the `NumberFormatException` message, then the first missing variable); on success it takes the parsed port, the two required values and `BN_LOGDIR` with default `/logs` |
| `Config.BadPortStopsStartup` | src/main/java/com/binaris/Runtime.java:142 | a `BOLT_PORT` that `Integer.parseInt` rejects stops startup with its `NumberFormatException` even when every required variable is set |

## Left out

- HTTP routing and the framework's request and response objects (Runtime.java:179-187): the request and the response are plain datatypes; header-name case-insensitivity and the duplicate-header policy of the header and query maps are the framework's and are not modelled (header names are taken as already normalised).
- JSON parsing and serialisation internals (Gson): the parser is a parameter, and the route's final `toJson` of the returned value is not modelled; the model stops at the value to be serialised.
- JSON object member order and repeated member names: a JSON object is a map from names to values, so the order of members in a parsed body (which the library keeps and a handler can see) and duplicate names are not represented. JSON numbers are kept as decimal text, without the library's numeric conversions.
- Reflective loading of the handler class: folded into the handler's outcome: `ClassNotFoundException`, `InstantiationException`, `IllegalAccessException` and `ClassCastException` are `Failure`; an `Error` raised while loading (`ExceptionInInitializerError`, `NoClassDefFoundError`) is `Fatal`.
- `System.nanoTime`: the elapsed time is an input; the 64-bit subtraction that produces it is not modelled.
- Stack-trace formatting and `Exception.toString()`: opaque strings carried by `Failure`, assumed not to throw. A user exception whose `toString()`, `getMessage()` or stack-trace printing throws makes the catch block itself throw after the status is set to 500; `invoke` then exits by throwing with status 500 and only the id header, an exit no `Outcome` produces.
- `JsonLogStream` and `hookStdStreams` (log-file output), and `main`'s early return when the log file cannot be opened: stream and file I/O.
- Thread safety of `AtomicInteger`, and the gaps between a route entry's two increments (Runtime.java:169-170) and between the health route's two reads (Runtime.java:190-191): concurrent calls are modelled as interleavings of steps in which each pair is taken as one indivisible step. The source takes no joint snapshot of the two counters, so a reported pair may combine values read at two different moments; the model does not describe such pairs.
- `Integer.parseInt` of the port (Runtime.java:142): a parameter of `Config.Configure` (its acceptance of non-ASCII Unicode digits is the JDK's); the message of the `NumberFormatException` is modelled as Java 8's `For input string: "<text>"`. Handing the port to the web framework is not modelled.
- What the web framework does with a throwable that escapes the route (its own error page): the model records only that `invoke` threw and that the route's `finally` ran.
- Counters.RequestCountMonotone: holds only below `Integer.MAX_VALUE`, because the Java `int` counter wraps (see `Counters.RequestCountWraps`).
- Counters.InFlightFromStart: stated for fewer than 2^31 calls since process start, for the same reason.

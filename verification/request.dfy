/** The inbound HTTP request as the web framework presents it, and the normalised
    request record handed to user code. */
module Request {

  /** The route prefix every invocation path starts with. */
  const RunPrefix: string := "/v1/run"

  /** What the runtime reads from the framework's request object.  Header names are
      taken as already normalised by the framework (lookups there ignore case). */
  datatype RawRequest = RawRequest(
    requestMethod: string,
    pathInfo: string,
    headers: map<string, string>,
    query: map<string, seq<string>>,
    body: string)

  /** The record passed to the handler: `BinarisRequest` (its Java field `method`
      is `httpMethod` here, `method` being a Dafny keyword). */
  datatype BinarisRequest = BinarisRequest(
    body: string,
    httpMethod: string,
    path: string,
    headers: map<string, string>,
    query: map<string, seq<string>>,
    id: string)

  /** `path.replaceFirst("^/v1/run", "")`: the regular expression is anchored at the
      start of the input, so only a leading occurrence is removed, and only once. */
  function StripRunPrefix(path: string): (r: string)
    ensures RunPrefix <= path ==> RunPrefix + r == path
    ensures !(RunPrefix <= path) ==> r == path
  {
    if RunPrefix <= path then path[|RunPrefix|..] else path
  }

  /** Stripping again changes nothing exactly when the stripped path does not itself
      start with the prefix; so stripping is not idempotent in general. */
  lemma StripTwice(path: string)
    ensures StripRunPrefix(StripRunPrefix(path)) == StripRunPrefix(path)
        <==> !(RunPrefix <= StripRunPrefix(path))
  {
  }

  /** The doubled prefix keeps one copy, which a second strip would remove. */
  lemma StripNotIdempotent()
    ensures StripRunPrefix("/v1/run/v1/run") == "/v1/run"
    ensures StripRunPrefix(StripRunPrefix("/v1/run/v1/run")) == ""
  {
  }

  /** The paths the framework routes to the runtime (`/v1/run` itself and everything below `/v1/run/`)
      become the empty path and the part after the prefix. */
  lemma StripRoutedPaths(rest: string)
    ensures StripRunPrefix(RunPrefix) == ""
    ensures StripRunPrefix(RunPrefix + "/" + rest) == "/" + rest
  {
  }

  /** Builds the handler's request record from the framework request and the
      request id already read from its headers. */
  function Normalize(raw: RawRequest, id: string): (r: BinarisRequest)
    ensures r.id == id
    ensures r.body == raw.body && r.httpMethod == raw.requestMethod
    ensures RunPrefix <= raw.pathInfo ==> RunPrefix + r.path == raw.pathInfo
    ensures !(RunPrefix <= raw.pathInfo) ==> r.path == raw.pathInfo
    ensures r.headers == raw.headers && r.query == raw.query
  {
    BinarisRequest(
      body := raw.body,
      httpMethod := raw.requestMethod,
      path := StripRunPrefix(raw.pathInfo),
      headers := raw.headers,
      query := raw.query,
      id := id)
  }
}

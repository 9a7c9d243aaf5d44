/** An abstract JSON value: the shape of what a JSON library parses and serialises.
    A number is kept as its decimal text, so fractions and exponents are values too.
    An object is a map from member names to values: the order of its members, and
    repeated member names, are not represented.  How text becomes a value (and back)
    is left to the library and not modelled. */
module Json {
  import opened Wrappers

  datatype Value =
    | JNull
    | JBool(b: bool)
    | JNumber(text: string)
    | JString(s: string)
    | JArray(items: seq<Value>)
    | JObject(fields: map<string, Value>)

  /** What the parser does with a body text.  `EmptyDocument` is an input with no
      JSON value in it, for which the library returns `null` without throwing;
      `SyntaxError` is an input on which it throws a parse exception. */
  datatype ParseResult = Parsed(value: Value) | EmptyDocument | SyntaxError

  /** Parses a body, turning every parse failure into "no parsed body" (`None`).
      A successfully parsed JSON `null` stays `Some(JNull)`, distinct from the marker. */
  function TryDeserialize(parse: string -> ParseResult, body: string): (r: Option<Value>)
    ensures r.Some? <==> parse(body).Parsed?
    ensures r.Some? ==> r.value == parse(body).value
  {
    match parse(body)
    case Parsed(v) => Some(v)
    case EmptyDocument => None
    case SyntaxError => None
  }

  /** A JSON object whose every member is a string. */
  function StringObject(fields: map<string, string>): (r: Value)
    ensures r.JObject?
    ensures r.fields.Keys == fields.Keys
    ensures forall k :: k in fields ==> r.fields[k] == JString(fields[k])
  {
    JObject(map k | k in fields :: JString(fields[k]))
  }
}

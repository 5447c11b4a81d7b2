/** `Resource<A, CustomError>`: the immutable description of one request. */
module Resources {

  import opened Basics
  import opened Dicts
  import opened Values
  import opened Paths

  /** `RequestMethod`, a `String`-backed enum. */
  datatype Method = Get | Post | Put | Delete

  /** `rawValue`. */
  function RawValue(m: Method): string
  {
    match m
    case Get => "GET"
    case Post => "POST"
    case Put => "PUT"
    case Delete => "DELETE"
  }

  /** `init?(rawValue:)`, synthesised for a raw-value enum. */
  function FromRawValue(s: string): Option<Method>
  {
    if s == "GET" then Some(Get)
    else if s == "POST" then Some(Post)
    else if s == "PUT" then Some(Put)
    else if s == "DELETE" then Some(Delete)
    else None
  }

  /** The raw value identifies the method, and only the four raw values name one. */
  lemma RawValueRoundTrip(m: Method, s: string)
    ensures FromRawValue(RawValue(m)) == Some(m)
    ensures FromRawValue(s) == Some(m) <==> s == RawValue(m)
  {
  }

  /** `HTTPHeaders`. */
  type Headers = Dict<string>

  /** `JSON`, the parameter dictionary. */
  type Params = Dict<AnyValue>

  /** A JSON decoding failure, as thrown by `JSONDecoder.decode`. */
  datatype DecodingError = DecodingError(reason: string)

  datatype Resource<A, E> = Resource(
    path: Path,
    requestMethod: Method,
    headers: Headers,
    params: Params,
    parse: Data -> Option<A>,
    parseError: Data -> Option<E>)

  /** The generic initialiser: parses the path and stores everything else as given. */
  function Make<A, E>(path: string, parse: Data -> Option<A>, parseError: Data -> Option<E>,
                      requestMethod: Method := Post, params: Params := [], headers: Headers := []): (r: Resource<A, E>)
    ensures Valid(r.path) && Parse(AbsolutePath(r.path)) == r.path
    ensures AbsolutePath(r.path) == AbsolutePath(Parse(path))
    ensures r.requestMethod == requestMethod && r.params == params && r.headers == headers
    ensures r.parse == parse && r.parseError == parseError
  {
    ParseIdempotent(path);
    Resource(Parse(path), requestMethod, headers, params, parse, parseError)
  }

  /** The generic initialiser defaults the method to POST and the maps to empty. */
  lemma MakeDefaults<A, E>(path: string, parse: Data -> Option<A>, parseError: Data -> Option<E>)
    ensures Make(path, parse, parseError).requestMethod == Post
    ensures Make(path, parse, parseError).params == []
    ensures Make(path, parse, parseError).headers == []
  {
  }

  const AcceptHeader := "Accept"
  const ContentTypeHeader := "Content-Type"
  const ApplicationJson := "application/json"

  /** `try? decoder.decode(T.self, from:)`: a decoding failure becomes an absent value. */
  function Swallow<T>(decode: Data -> Result<T, DecodingError>): (f: Data -> Option<T>)
    ensures forall d :: f(d).None? <==> decode(d).Failure?
    ensures forall d :: decode(d).Success? ==> f(d) == Some(decode(d).value)
  {
    d => if decode(d).Success? then Some(decode(d).value) else None
  }

  /** The headers of the Decodable initialiser: the JSON defaults overwrite the caller's values for their two keys. */
  function DecodableHeaders(headers: Headers, defaultHeadersIncluded: bool): (h: Headers)
    ensures defaultHeadersIncluded ==> Lookup(h, AcceptHeader) == Some(ApplicationJson)
    ensures defaultHeadersIncluded ==> Lookup(h, ContentTypeHeader) == Some(ApplicationJson)
    ensures defaultHeadersIncluded ==> Keys(h) == Keys(headers) + {AcceptHeader, ContentTypeHeader}
    ensures !defaultHeadersIncluded ==> h == headers
    ensures forall k :: k != AcceptHeader && k != ContentTypeHeader ==> Lookup(h, k) == Lookup(headers, k)
  {
    if defaultHeadersIncluded then
      Set(Set(headers, AcceptHeader, ApplicationJson), ContentTypeHeader, ApplicationJson)
    else headers
  }

  /**
   * The initialiser for Decodable value and error types: `decodeValue` and
   * `decodeError` stand for the one `JSONDecoder` applied to the two types.
   */
  function MakeDecodable<A, E>(decodeValue: Data -> Result<A, DecodingError>, decodeError: Data -> Result<E, DecodingError>,
                               path: string, requestMethod: Method := Get, params: Params := [], headers: Headers := [],
                               defaultHeadersIncluded: bool := true): (r: Resource<A, E>)
    ensures Valid(r.path) && AbsolutePath(r.path) == AbsolutePath(Parse(path))
    ensures r.requestMethod == requestMethod && r.params == params
    ensures r.headers == DecodableHeaders(headers, defaultHeadersIncluded)
    ensures forall d :: r.parse(d).None? <==> decodeValue(d).Failure?
    ensures forall d :: decodeValue(d).Success? ==> r.parse(d) == Some(decodeValue(d).value)
    ensures forall d :: r.parseError(d).None? <==> decodeError(d).Failure?
    ensures forall d :: decodeError(d).Success? ==> r.parseError(d) == Some(decodeError(d).value)
  {
    Resource(Parse(path), requestMethod, DecodableHeaders(headers, defaultHeadersIncluded), params,
             Swallow(decodeValue), Swallow(decodeError))
  }

  /** The Decodable initialiser defaults to GET with both JSON headers. */
  lemma MakeDecodableDefaults<A, E>(decodeValue: Data -> Result<A, DecodingError>, decodeError: Data -> Result<E, DecodingError>, path: string)
    ensures MakeDecodable(decodeValue, decodeError, path).requestMethod == Get
    ensures Lookup(MakeDecodable(decodeValue, decodeError, path).headers, AcceptHeader) == Some(ApplicationJson)
    ensures Lookup(MakeDecodable(decodeValue, decodeError, path).headers, ContentTypeHeader) == Some(ApplicationJson)
  {
  }
}

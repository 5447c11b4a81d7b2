/**
 * The JSON REST client: building a request from a base URL and a `Resource`,
 * classifying the transport's answer into a `Response`, and the best-effort
 * bearer-token refresh run when a client is created.
 *
 * Foundation's collaborators are inputs: `URLComponents(string:)` parsing and
 * `components.url` are `UrlEnv.parse` and `UrlEnv.renders`,
 * `JSONSerialization.data(withJSONObject:)` is `UrlEnv.serialize`, the
 * reachability status and the transport are parameters of `Load`.
 */
module WebClient {

  import opened Basics
  import opened Dicts
  import opened Values
  import opened Paths
  import opened WebErrors
  import opened Responses
  import opened Resources

  // ---------------------------------------------------------------------
  // URLs and requests.

  datatype QueryItem = QueryItem(name: string, value: Option<string>)

  /**
   * The parts of `URLComponents` the client reads or writes; `origin` holds
   * everything else (scheme, user, host, port, fragment), which it keeps.
   */
  datatype UrlComponents = UrlComponents(origin: string, path: string, queryItems: Option<seq<QueryItem>>)

  /** A built URL: the components when they render, else `URL(fileURLWithPath: "")`. */
  datatype Url = ComponentsUrl(components: UrlComponents) | EmptyFileUrl

  datatype UrlEnv = UrlEnv(
    parse: string -> Option<UrlComponents>,
    renders: UrlComponents -> bool,
    describeOther: AnyValue -> string,
    serialize: Params -> Option<Data>)

  /** One query item per parameter, in the dictionary's order, valued by `String(describing:)`. */
  function ParamItems(env: UrlEnv, params: Params): (items: seq<QueryItem>)
    ensures |items| == |params|
    ensures forall i :: 0 <= i < |params| ==>
      items[i] == QueryItem(params[i].0, Some(Describe(params[i].1, env.describeOther)))
  {
    seq(|params|, i requires 0 <= i < |params| => QueryItem(params[i].0, Some(Describe(params[i].1, env.describeOther))))
  }

  predicate QueryMethod(m: Method) {
    m == Get || m == Delete
  }

  /** `URLComponents(string: resource.path.absolutePath)`. */
  function ResourceComponents<A, E>(env: UrlEnv, res: Resource<A, E>): Option<UrlComponents>
  {
    env.parse(AbsolutePath(res.path))
  }

  /** The path the resource's components report, `""` when they do not parse. */
  function ResourcePath<A, E>(env: UrlEnv, res: Resource<A, E>): string
  {
    match ResourceComponents(env, res)
    case Some(c) => c.path
    case None => ""
  }

  /** The query items the resource's components report, absent when they do not parse. */
  function ResourceQueryItems<A, E>(env: UrlEnv, res: Resource<A, E>): Option<seq<QueryItem>>
  {
    match ResourceComponents(env, res)
    case Some(c) => c.queryItems
    case None => None
  }

  /**
   * The components `URL.init(baseUrl:resource:)` builds from the parsed base
   * URL: the base's other parts, the joined path, and the resource path's
   * query items followed, for GET and DELETE, by one item per parameter.
   */
  function Components<A, E>(env: UrlEnv, base: UrlComponents, res: Resource<A, E>): (c: UrlComponents)
    ensures c.origin == base.origin
    ensures c.path == AbsolutePath(Append(Parse(base.path), Parse(ResourcePath(env, res))))
    // base segments first, then the resource's, none empty
    ensures Parse(c.path).components == Parse(base.path).components + Parse(ResourcePath(env, res)).components
    // the base URL's own query items are dropped
    ensures !QueryMethod(res.requestMethod) ==> c.queryItems == ResourceQueryItems(env, res)
    ensures QueryMethod(res.requestMethod) ==>
      var items := ResourceQueryItems(env, res).GetOr([]);
      && c.queryItems.Some?
      && |c.queryItems.value| == |items| + |res.params|
      && c.queryItems.value[..|items|] == items
      && c.queryItems.value[|items|..] == ParamItems(env, res.params)
  {
    var joined := Appending(Parse(base.path), Parse(ResourcePath(env, res)));
    ParseAbsolutePath(joined);
    var items :=
      if QueryMethod(res.requestMethod)
      then Some(ResourceQueryItems(env, res).GetOr([]) + ParamItems(env, res.params))
      else ResourceQueryItems(env, res);
    base.(path := AbsolutePath(joined), queryItems := items)
  }

  /**
   * `URL.init(baseUrl:resource:)`: the built components when the base URL
   * parses and they render, `URL(fileURLWithPath: "")` otherwise.
   */
  function BuildUrl<A, E>(env: UrlEnv, baseUrl: string, res: Resource<A, E>): (u: Url)
    ensures env.parse(baseUrl).None? ==> u == EmptyFileUrl
    ensures env.parse(baseUrl).Some? ==>
      (u.ComponentsUrl? <==> env.renders(Components(env, env.parse(baseUrl).value, res)))
    ensures u.ComponentsUrl? ==>
      env.parse(baseUrl).Some? && u.components == Components(env, env.parse(baseUrl).value, res)
  {
    match env.parse(baseUrl)
    case None => EmptyFileUrl
    case Some(base) =>
      var c := Components(env, base, res);
      if env.renders(c) then ComponentsUrl(c) else EmptyFileUrl
  }

  datatype Request = Request(url: Url, httpMethod: string, headers: Headers, body: Option<Data>)

  /** `setValue(_:forHTTPHeaderField:)` for every entry of `entries`, in order. */
  function SetHeaders(acc: Headers, entries: Headers): (h: Headers)
    ensures forall k :: Lookup(h, k) == if k in Keys(entries) then Lookup(entries, k) else Lookup(acc, k)
    decreases |entries|
  {
    if |entries| == 0 then acc
    else
      var rest: Headers := entries[1..];
      var h := SetHeaders(Set(acc, entries[0].0, entries[0].1), rest);
      assert entries[0].0 !in Keys(rest) by {
        KeysIndex(rest, entries[0].0);
      }
      h
  }

  /** `URLRequest.init(baseUrl:resource:querryParams:)`. */
  function BuildRequest<A, E>(env: UrlEnv, baseUrl: string, res: Resource<A, E>, querryParams: bool): (r: Request)
    ensures r.url == BuildUrl(env, baseUrl, res)
    ensures FromRawValue(r.httpMethod) == Some(res.requestMethod)
    ensures forall k :: Lookup(r.headers, k) == Lookup(res.headers, k)
    ensures r.body.Some? ==> !querryParams && (res.requestMethod == Post || res.requestMethod == Put)
    ensures !querryParams && (res.requestMethod == Post || res.requestMethod == Put) ==> r.body == env.serialize(res.params)
  {
    var body :=
      if querryParams then None
      else match res.requestMethod
        case Post | Put => env.serialize(res.params)
        case _ => None;
    Request(BuildUrl(env, baseUrl, res), RawValue(res.requestMethod), SetHeaders([], res.headers), body)
  }

  // ---------------------------------------------------------------------
  // Loading a resource.

  datatype Interface = Wwan | WiFi

  /** `Reach().connectionStatus()`. */
  datatype Connectivity = Unknown | Offline | Online(via: Interface)

  /** The transport's `URLResponse`: an `HTTPURLResponse` with its status code, or something else or nothing. */
  datatype HttpReply = NotHttp | Http(statusCode: int)

  /** What the data task hands to its completion handler (its error argument is ignored). */
  datatype TransportOutcome = TransportOutcome(data: Option<Data>, reply: HttpReply)

  datatype Client = Client(baseUrl: string, commonParams: Params)

  /** The response delivered to the completion, and the request whose task `load` returns (none: `nil`). */
  datatype LoadResult<A, E> = LoadResult(response: Response<A, E>, dispatched: Option<Request>)

  predicate Successful(code: int) {
    200 <= code < 300
  }

  function FlatMap<T>(data: Option<Data>, f: Data -> Option<T>): Option<T>
  {
    match data
    case Some(d) => f(d)
    case None => None
  }

  /** The classification run in the data task's completion. */
  function Classify<A, E>(res: Resource<A, E>, outcome: TransportOutcome): (r: Response<A, E>)
    ensures r.Success? <==>
      outcome.reply.Http? && Successful(outcome.reply.statusCode) && outcome.data.Some? && res.parse(outcome.data.value).Some?
    ensures r.Success? ==> Some(r.payload) == res.parse(outcome.data.value)
    ensures r == Response.Failure(Unauthorized) <==> outcome.reply == Http(401)
    ensures r.Failure? && r.reason.Custom? <==>
      && outcome.reply.Http? && !Successful(outcome.reply.statusCode) && outcome.reply.statusCode != 401
      && outcome.data.Some? && res.parseError(outcome.data.value).Some?
    ensures r.Failure? && r.reason.Custom? ==> Some(r.reason.custom) == res.parseError(outcome.data.value)
    ensures r != Response.Failure(NoInternetConnection)
  {
    match outcome.reply
    case NotHttp => Response.Failure(Other)
    case Http(code) =>
      if Successful(code) then FromOptional(FlatMap(outcome.data, res.parse), Other)
      else if code == 401 then Response.Failure(Unauthorized)
      else
        match FlatMap(outcome.data, res.parseError)
        case Some(e) => Response.Failure(Custom(e))
        case None => Response.Failure(Other)
  }

  /** The catch-all `other` covers exactly: no HTTP response, an undecodable success body, an undecodable error body. */
  lemma ClassifyOther<A, E>(res: Resource<A, E>, outcome: TransportOutcome)
    ensures Classify(res, outcome) == Response.Failure(Other) <==>
      || outcome.reply.NotHttp?
      || (Successful(outcome.reply.statusCode) && FlatMap(outcome.data, res.parse).None?)
      || (!Successful(outcome.reply.statusCode) && outcome.reply.statusCode != 401
          && FlatMap(outcome.data, res.parseError).None?)
  {
  }

  /**
   * `newResouce` of `load`: the resource with the client's common parameters
   * merged into its own, its own value winning on a shared key.
   */
  function MergedResource<A, E>(client: Client, res: Resource<A, E>): (m: Resource<A, E>)
    ensures m.path == res.path && m.requestMethod == res.requestMethod && m.headers == res.headers
    ensures Keys(m.params) == Keys(res.params) + Keys(client.commonParams)
    ensures forall k :: k in Keys(res.params) ==> Lookup(m.params, k) == Lookup(res.params, k)
    ensures forall k :: k !in Keys(res.params) ==> Lookup(m.params, k) == Lookup(client.commonParams, k)
  {
    res.(params := Merging(res.params, client.commonParams))
  }

  /**
   * `load` as written: offline or unknown connectivity answers at once and
   * dispatches nothing; otherwise the request is built from `res` itself
   * (the merged copy is computed and never used), handed to the transport,
   * and its outcome classified.
   */
  function Load<A, E>(env: UrlEnv, client: Client, res: Resource<A, E>, querryParamsIncluded: bool,
                      status: Connectivity, transport: Request -> TransportOutcome): (r: LoadResult<A, E>)
    ensures !status.Online? ==> r == LoadResult(Response.Failure(NoInternetConnection), None)
    ensures status.Online? ==> r.dispatched == Some(BuildRequest(env, client.baseUrl, res, querryParamsIncluded))
    ensures status.Online? ==> r.response == Classify(res, transport(r.dispatched.value))
    ensures r.response == Response.Failure(NoInternetConnection) <==> !status.Online?
  {
    match status
    case Unknown | Offline => LoadResult(Response.Failure(NoInternetConnection), None)
    case Online(_) =>
      var unused := MergedResource(client, res);
      var request := BuildRequest(env, client.baseUrl, res, querryParamsIncluded);
      LoadResult(Classify(res, transport(request)), Some(request))
  }

  /** As written, the common parameters never reach the request or the response. */
  lemma LoadIgnoresCommonParams<A, E>(env: UrlEnv, client: Client, common: Params, res: Resource<A, E>,
                                      q: bool, status: Connectivity, transport: Request -> TransportOutcome)
    ensures Load(env, client, res, q, status, transport) == Load(env, client.(commonParams := common), res, q, status, transport)
  {
  }

  /** A worked merge: the resource's `lang` wins over the common one, and `id` is kept. */
  lemma MergeExample<A, E>(res: Resource<A, E>, client: Client)
    requires res.params == [("lang", Str("fr")), ("id", Str("1"))]
    requires client.commonParams == [("lang", Str("en"))]
    ensures Lookup(MergedResource(client, res).params, "lang") == Some(Str("fr"))
    ensures Lookup(MergedResource(client, res).params, "id") == Some(Str("1"))
    ensures Keys(MergedResource(client, res).params) == {"lang", "id"}
  {
    assert "lang" in Keys(res.params);
    assert "id" in Keys(res.params);
  }

  /**
   * A GET whose resource has no parameters, sent by a client with one
   * common parameter: as written the URL carries no query item for it.
   */
  lemma CommonParamsDroppedExample<A, E>(env: UrlEnv, client: Client, res: Resource<A, E>, transport: Request -> TransportOutcome)
    requires res.requestMethod == Get && res.params == []
    requires client.commonParams == [("lang", Str("en"))]
    requires env.parse(client.baseUrl).Some? && ResourceQueryItems(env, res) == None
    ensures var c := Components(env, env.parse(client.baseUrl).value, res);
      var u := Load(env, client, res, false, Online(WiFi), transport).dispatched.value.url;
      && c.queryItems == Some([])
      && (u.ComponentsUrl? <==> env.renders(c))
      && (u.ComponentsUrl? ==> u.components == c)
  {
  }

  /** `load` with the merged resource actually used to build the request. */
  function LoadWithCommonParams<A, E>(env: UrlEnv, client: Client, res: Resource<A, E>, querryParamsIncluded: bool,
                                      status: Connectivity, transport: Request -> TransportOutcome): (r: LoadResult<A, E>)
    ensures !status.Online? ==> r == LoadResult(Response.Failure(NoInternetConnection), None)
    ensures status.Online? ==> r.dispatched == Some(BuildRequest(env, client.baseUrl, MergedResource(client, res), querryParamsIncluded))
    ensures status.Online? ==> r.response == Classify(res, transport(r.dispatched.value))
  {
    match status
    case Unknown | Offline => LoadResult(Response.Failure(NoInternetConnection), None)
    case Online(_) =>
      var request := BuildRequest(env, client.baseUrl, MergedResource(client, res), querryParamsIncluded);
      LoadResult(Classify(res, transport(request)), Some(request))
  }

  /**
   * With the merge in place, a GET or DELETE request carries one query item
   * per merged parameter: every common parameter the resource does not
   * override reaches the URL's components with its value, and the URL sent
   * is those components whenever they render.
   */
  lemma CommonParamsReachQuery<A, E>(env: UrlEnv, client: Client, res: Resource<A, E>, status: Connectivity,
                                     transport: Request -> TransportOutcome, k: string)
    requires status.Online? && QueryMethod(res.requestMethod)
    requires k in Keys(client.commonParams) && k !in Keys(res.params)
    requires env.parse(client.baseUrl).Some?
    ensures var c := Components(env, env.parse(client.baseUrl).value, MergedResource(client, res));
      var u := LoadWithCommonParams(env, client, res, false, status, transport).dispatched.value.url;
      && c.queryItems.Some?
      && QueryItem(k, Some(Describe(Lookup(client.commonParams, k).value, env.describeOther))) in c.queryItems.value
      && (u.ComponentsUrl? <==> env.renders(c))
      && (u.ComponentsUrl? ==> u.components == c)
  {
    var m := MergedResource(client, res);
    assert LoadWithCommonParams(env, client, res, false, status, transport).dispatched.value.url == BuildUrl(env, client.baseUrl, m);
    ParamReachesQuery(env, env.parse(client.baseUrl).value, m, k);
  }

  /** Every parameter has its query item. */
  lemma ParamItemPresent(env: UrlEnv, params: Params, k: string)
    requires k in Keys(params)
    ensures QueryItem(k, Some(Describe(Lookup(params, k).value, env.describeOther))) in ParamItems(env, params)
  {
    KeysIndex(params, k);
    var i :| 0 <= i < |params| && params[i].0 == k;
    LookupAt(params, i);
    assert ParamItems(env, params)[i] == QueryItem(k, Some(Describe(params[i].1, env.describeOther)));
  }

  /** For GET and DELETE, every parameter of the resource appears among the built query items. */
  lemma ParamReachesQuery<A, E>(env: UrlEnv, base: UrlComponents, res: Resource<A, E>, k: string)
    requires QueryMethod(res.requestMethod) && k in Keys(res.params)
    ensures var items := Components(env, base, res).queryItems;
      && items.Some?
      && QueryItem(k, Some(Describe(Lookup(res.params, k).value, env.describeOther))) in items.value
  {
    ParamItemPresent(env, res.params, k);
    var pre := ResourceQueryItems(env, res).GetOr([]);
    var items := Components(env, base, res).queryItems.value;
    assert items == items[..|pre|] + items[|pre|..];
    assert items == pre + ParamItems(env, res.params);
  }

  // ---------------------------------------------------------------------
  // Token refresh.

  /** The credential store (`DefaultsManager`): bearer token and its expiry. */
  datatype Credentials = Credentials(bearerToken: Option<string>, expireTime: Option<int>)

  /** The persisted `OIDAuthState`, through the token of its last token response. */
  datatype AuthState = AuthState(lastAccessToken: Option<string>)

  /** What `performAction` hands its callback: a fresh access token, and whether an error came with it. */
  datatype RefreshReply = RefreshReply(accessToken: Option<string>, failed: bool)

  /**
   * `init` refreshes only when an expiry is stored and lies at most two
   * minutes ahead; `minutesFrom` is `minutes(from: Date())`, the clock read.
   */
  predicate ExpiresSoon(expireTime: Option<int>, minutesFrom: int -> int) {
    expireTime.Some? && minutesFrom(expireTime.value) <= 2
  }

  /**
   * `refreshToken(with:)`: an error or a missing token changes nothing; a
   * token equal to the state's last one changes nothing; any other token
   * becomes the bearer token and its expiry (`expiryOf`) is stored.
   */
  function RefreshToken(store: Credentials, auth: AuthState, reply: RefreshReply, expiryOf: string -> int): (s: Credentials)
    ensures s != store ==> !reply.failed && reply.accessToken.Some? && auth.lastAccessToken != reply.accessToken
    ensures !reply.failed && reply.accessToken.Some? && auth.lastAccessToken != reply.accessToken ==>
      s == Credentials(reply.accessToken, Some(expiryOf(reply.accessToken.value)))
    ensures reply.failed || reply.accessToken.None? || auth.lastAccessToken == reply.accessToken ==> s == store
  {
    if reply.failed then store
    else match reply.accessToken
      case None => store
      case Some(token) =>
        if auth.lastAccessToken != Some(token)
        then Credentials(Some(token), Some(expiryOf(token)))
        else store
  }

  /**
   * `WebClient.init(baseUrl:)`: a client with no common parameters, and the
   * credentials after the refresh check. The expiry checked is the one in
   * `store`, the same `DefaultsManager.expireTime` that `RefreshToken`
   * writes; `persisted` is the auth state read back from the shared
   * defaults (absent when missing or not unarchivable).
   */
  function InitClient(baseUrl: string, minutesFrom: int -> int, persisted: Option<AuthState>,
                      reply: RefreshReply, store: Credentials, expiryOf: string -> int): (r: (Client, Credentials))
    ensures r.0 == Client(baseUrl, [])
    ensures r.1 != store <==>
      && ExpiresSoon(store.expireTime, minutesFrom) && persisted.Some?
      && !reply.failed && reply.accessToken.Some? && persisted.value.lastAccessToken != reply.accessToken
      && store != Credentials(reply.accessToken, Some(expiryOf(reply.accessToken.value)))
    ensures r.1 != store ==> r.1 == Credentials(reply.accessToken, Some(expiryOf(reply.accessToken.value)))
  {
    var client := Client(baseUrl, []);
    if ExpiresSoon(store.expireTime, minutesFrom) && persisted.Some?
    then (client, RefreshToken(store, persisted.value, reply, expiryOf))
    else (client, store)
  }
}

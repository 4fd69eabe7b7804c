/** src/api/base.ts: the `_get` and `_post` helpers every API service uses.
    `_get` forwards to the client and turns whatever the client throws into
    one of the SDK's typed errors; `_post` forwards unchanged. */
module BaseApi {
  import opened Wrappers
  import opened Text
  import opened JsValues
  import opened Transport
  import opened Errors
  import opened Helpers
  import opened LruCache
  import opened Client

  const ListByNetworkHint := "client.pools.listByNetwork('ethereum')"
  const PoolsAlternative := "network-specific endpoints like " + ListByNetworkHint
  const GenericAlternative := "check API documentation for alternatives"
  const UnknownApiError := "Unknown API error"
  const UnknownError := "Unknown error occurred"
  const UnknownNetwork: string := "unknown"
  const UnknownPool: string := "unknown"

  /** Reading `error.response` when the executor threw `undefined`. */
  const UndefinedResponseError := BuiltInError("TypeError", "Cannot read properties of undefined (reading 'response')")

  /** Calling `message.toLowerCase()` on a message that is not a string. */
  const NotAStringError := BuiltInError("TypeError", "message.toLowerCase is not a function")

  /** `data?.error || data?.message || 'Unknown API error'`. */
  function ServerMessage(data: Json): (m: Json)
    ensures Truthy(m)
    ensures Field(data, "error").Some? && Truthy(Field(data, "error").value) ==> m == Field(data, "error").value
    ensures !(Field(data, "error").Some? && Truthy(Field(data, "error").value))
            && Field(data, "message").Some? && Truthy(Field(data, "message").value)
            ==> m == Field(data, "message").value
    ensures m == JStr(UnknownApiError) || Field(data, "error") == Some(m) || Field(data, "message") == Some(m)
  {
    var e := Field(data, "error");
    var msg := Field(data, "message");
    if e.Some? && Truthy(e.value) then e.value
    else if msg.Some? && Truthy(msg.value) then msg.value
    else JStr(UnknownApiError)
  }

  /** Where `/\/networks\/([^\/]+)/` can match: "/networks/" at `i`,
      followed by at least one character other than '/'. */
  predicate NetworkMatchAt(s: string, i: int) {
    OccursAt(s, "/networks/", i) && i + 10 < |s| && s[i + 10] != '/'
  }

  /** `endpoint.match(/\/networks\/([^\/]+)/)?.[1]`: the regex settles on the
      leftmost position where it can match, and the greedy group takes every
      character up to the next '/' or the end. */
  function NetworkCapture(s: string): (r: Option<string>)
    ensures r.None? <==> forall i :: 0 <= i < |s| ==> !NetworkMatchAt(s, i)
    ensures r.Some? ==> exists i :: && NetworkMatchAt(s, i)
                                    && (forall j :: 0 <= j < i ==> !NetworkMatchAt(s, j))
                                    && r.value == TakeUntil(s[i + 10..], '/')
    ensures r.Some? ==> r.value != [] && '/' !in r.value
    ensures r.Some? ==> Contains(s, "/networks/" + r.value)
    decreases |s|
  {
    if |s| <= 10 then None
    else if IsPrefix("/networks/", s) && s[10] != '/' then
      var id := TakeUntil(s[10..], '/');
      assert s[..10 + |id|] == "/networks/" + id;
      assert OccursAt(s, "/networks/" + id, 0);
      assert s[0..10] == s[..10];
      assert NetworkMatchAt(s, 0);
      Some(id)
    else
      assert s[0..10] == s[..10];
      var r := NetworkCapture(s[1..]);
      CaptureFromTail(s, r);
      if r.Some? then ContainsInTail(s, "/networks/" + r.value); r else r
  }

  /** Matching in `s[1..]` at `j` is matching in `s` at `j + 1`. */
  lemma NetworkMatchShift(s: string, j: nat)
    requires |s| > 0
    ensures NetworkMatchAt(s[1..], j) <==> NetworkMatchAt(s, j + 1)
    ensures NetworkMatchAt(s, j + 1) ==> s[1..][j + 10..] == s[j + 11..]
  {
    if j + 10 <= |s[1..]| {
      assert s[1..][j..j + 10] == s[j + 1..j + 11];
    }
  }

  /** When nothing matches at 0, the capture of `s` is the capture of its tail. */
  lemma CaptureFromTail(s: string, r: Option<string>)
    requires |s| > 0 && !NetworkMatchAt(s, 0)
    requires r.None? <==> forall i :: 0 <= i < |s[1..]| ==> !NetworkMatchAt(s[1..], i)
    requires r.Some? ==> exists i :: && NetworkMatchAt(s[1..], i)
                                     && (forall j :: 0 <= j < i ==> !NetworkMatchAt(s[1..], j))
                                     && r.value == TakeUntil(s[1..][i + 10..], '/')
    ensures r.None? <==> forall i :: 0 <= i < |s| ==> !NetworkMatchAt(s, i)
    ensures r.Some? ==> exists i :: && NetworkMatchAt(s, i)
                                    && (forall j :: 0 <= j < i ==> !NetworkMatchAt(s, j))
                                    && r.value == TakeUntil(s[i + 10..], '/')
  {
    if r.Some? {
      var i :| && NetworkMatchAt(s[1..], i)
               && (forall j :: 0 <= j < i ==> !NetworkMatchAt(s[1..], j))
               && r.value == TakeUntil(s[1..][i + 10..], '/');
      NetworkMatchShift(s, i);
      forall j | 0 <= j < i + 1 ensures !NetworkMatchAt(s, j) {
        if j > 0 { NetworkMatchShift(s, j - 1); }
      }
    } else {
      forall i | 0 <= i < |s| ensures !NetworkMatchAt(s, i) {
        if i > 0 { NetworkMatchShift(s, i - 1); }
      }
    }
  }

  /** On a path "/networks/<id>..." the capture is exactly `id`. */
  lemma NetworkCaptureOf(id: string, rest: string)
    requires id != [] && '/' !in id
    requires rest == [] || rest[0] == '/'
    ensures NetworkCapture("/networks/" + id + rest) == Some(id)
  {
    var s := "/networks/" + id + rest;
    assert s[10..] == id + rest;
    assert IsPrefix("/networks/", s);
    TakeUntilOf(id, rest, '/');
  }

  /** The network named in a NetworkNotFoundError: `params.network`, else
      the path's network segment, else "unknown". */
  function NetworkIdFor(endpoint: string, params: Option<Params>): (id: string)
    ensures id != []
    ensures var v := if params.Some? then Lookup(params.value, "network") else None;
            v.Some? && ParamTruthy(v.value) ==> id == ParamText(v.value)
    ensures var v := if params.Some? then Lookup(params.value, "network") else None;
            !(v.Some? && ParamTruthy(v.value)) && NetworkCapture(endpoint).Some? ==> id == NetworkCapture(endpoint).value
    ensures var v := if params.Some? then Lookup(params.value, "network") else None;
            !(v.Some? && ParamTruthy(v.value)) && NetworkCapture(endpoint).None? ==> id == UnknownNetwork
  {
    var fromParams := if params.Some? then Lookup(params.value, "network") else None;
    if fromParams.Some? && ParamTruthy(fromParams.value) then
      ParamText(fromParams.value)
    else
      var captured := NetworkCapture(endpoint);
      if captured.Some? then captured.value else UnknownNetwork
  }

  /** The pool named in a PoolNotFoundError: `endpoint.split('/').pop() || 'unknown'`. */
  function PoolAddressFor(endpoint: string): (a: string)
    ensures a != [] && '/' !in a
    ensures LastSegment(endpoint) != [] ==> a == LastSegment(endpoint)
    ensures LastSegment(endpoint) == [] ==> a == UnknownPool
  {
    var last := LastSegment(endpoint);
    if last != [] then last else UnknownIsSegment(); UnknownPool
  }

  lemma UnknownIsSegment()
    ensures UnknownPool != [] && '/' !in UnknownPool
  {
    assert UnknownPool == ['u'] + "nknown";
  }

  /** The `catch` block of `_get`: the typed error for what the client threw
      (`None` is a thrown `undefined`). */
  function Classify(endpoint: string, params: Option<Params>, thrown: Option<TransportError>): (e: SdkError)
    ensures thrown.None? ==> e == UndefinedResponseError
    ensures thrown.Some? && thrown.value.response.None? ==>
              e == DexPaprikaError(if thrown.value.message != [] then thrown.value.message else UnknownError)
    ensures thrown.Some? && thrown.value.response.Some? && thrown.value.response.value.status == 410 ==>
              e.DeprecatedEndpointError? && e.endpoint == endpoint
    ensures thrown.Some? && thrown.value.response.Some? && thrown.value.response.value.status != 410
            && thrown.value.response.value.status != 404 ==>
              e == ApiError(ToJsString(ServerMessage(thrown.value.response.value.data)), thrown.value.response.value.status)
    ensures thrown.Some? && thrown.value.response.Some? && thrown.value.response.value.status == 404
            && !ServerMessage(thrown.value.response.value.data).JStr? ==>
              e == NotAStringError
  {
    match thrown
    case None => UndefinedResponseError
    case Some(err) =>
      match err.response
      case None => DexPaprikaError(if err.message != [] then err.message else UnknownError)
      case Some(resp) =>
        var message := ServerMessage(resp.data);
        if resp.status == 410 then
          if endpoint == "/pools" then DeprecatedEndpointError("/pools", PoolsAlternative)
          else DeprecatedEndpointError(endpoint, GenericAlternative)
        else if resp.status == 404 && !message.JStr? then NotAStringError
        else if resp.status == 404 && Contains(Lower(message.s), "network") then
          NetworkNotFoundError(NetworkIdFor(endpoint, params))
        else if resp.status == 404 && (Contains(Lower(message.s), "pool") || Contains(endpoint, "/pools/")) then
          PoolNotFoundError(PoolAddressFor(endpoint))
        else ApiError(ToJsString(message), resp.status)
  }

  /** What a caller of `_get` sees. */
  function GetOutcome(endpoint: string, params: Option<Params>, r: RetryResult<Json>): (o: Result<Json, SdkError>)
    ensures o.Ok? <==> r.Done?
    ensures o.Ok? ==> o.value == r.value
    ensures o.Err? ==> o.error == Classify(endpoint, params, r.lastError)
  {
    match r
    case Done(v) => Ok(v)
    case Threw(e) => Err(Classify(endpoint, params, e))
  }

  /** Which kind of error `_get` raises, by the status and message of the
      failed response. Together the cases cover every thrown value. */
  lemma ClassifyKinds(endpoint: string, params: Option<Params>, err: TransportError)
    ensures var e := Classify(endpoint, params, Some(err));
            && (err.response.None? <==> e.DexPaprikaError?)
            && (e.DeprecatedEndpointError? <==> err.response.Some? && err.response.value.status == 410)
            && (e.ApiError? ==> err.response.Some? && e.statusCode == err.response.value.status
                                && e.statusCode != 410)
            && ((err.response.Some? && err.response.value.status != 410 && err.response.value.status != 404)
                ==> e == ApiError(ToJsString(ServerMessage(err.response.value.data)), err.response.value.status))
            && ((e.NetworkNotFoundError? || e.PoolNotFoundError?)
                ==> err.response.Some? && err.response.value.status == 404)
            && (e == NotAStringError <==>
                  err.response.Some? && err.response.value.status == 404
                  && !ServerMessage(err.response.value.data).JStr?)
            && e != UndefinedResponseError
  {
    var e := Classify(endpoint, params, Some(err));
    if err.response.Some? {
      var resp := err.response.value;
      var message := ServerMessage(resp.data);
      if resp.status == 410 {
        assert e.DeprecatedEndpointError?;
      } else if resp.status == 404 && !message.JStr? {
        assert e == NotAStringError;
      } else if resp.status == 404 && Contains(Lower(message.s), "network") {
        assert e.NetworkNotFoundError?;
      } else if resp.status == 404 && (Contains(Lower(message.s), "pool") || Contains(endpoint, "/pools/")) {
        assert e.PoolNotFoundError?;
      } else {
        assert e == ApiError(ToJsString(message), resp.status);
      }
    }
  }

  /** On a 404 whose message mentions a network the network error wins,
      whatever else the message or path says; letter case does not matter. */
  lemma NetworkMessageWins(endpoint: string, params: Option<Params>, err: TransportError, text: string)
    requires err.response.Some? && err.response.value.status == 404
    requires ServerMessage(err.response.value.data) == JStr(text)
    requires Contains(Lower(text), "network")
    ensures Classify(endpoint, params, Some(err)) == NetworkNotFoundError(NetworkIdFor(endpoint, params))
  {
    var resp := err.response.value;
    var message := ServerMessage(resp.data);
    assert resp.status != 410 && message == JStr(text);
    assert message.s == text;
  }

  /** A 404 whose message does not mention a network, but mentions a pool in
      any letter case or comes from a path containing "/pools/", names the
      last path segment (or "unknown") as the missing pool. */
  lemma PoolRuleGivesPoolError(endpoint: string, params: Option<Params>, err: TransportError, text: string)
    requires err.response.Some? && err.response.value.status == 404
    requires ServerMessage(err.response.value.data) == JStr(text)
    requires !Contains(Lower(text), "network")
    requires Contains(Lower(text), "pool") || Contains(endpoint, "/pools/")
    ensures Classify(endpoint, params, Some(err)) == PoolNotFoundError(PoolAddressFor(endpoint))
  {
  }

  /** A 404 whose message says neither "network" nor "pool", on a path
      without "/pools/", stays a plain ApiError carrying the server's text. */
  lemma Other404IsApiError(endpoint: string, params: Option<Params>, err: TransportError, text: string)
    requires err.response.Some? && err.response.value.status == 404
    requires ServerMessage(err.response.value.data) == JStr(text)
    requires !Contains(Lower(text), "network") && !Contains(Lower(text), "pool")
    requires !Contains(endpoint, "/pools/")
    ensures Classify(endpoint, params, Some(err)) == ApiError(text, 404)
  {
    var resp := err.response.value;
    var message := ServerMessage(resp.data);
    assert resp.status != 410 && message == JStr(text);
    assert message.s == text;
    assert Classify(endpoint, params, Some(err)) == ApiError(ToJsString(message), 404);
  }

  /** A 410 on "/pools" points to `listByNetwork`; on any other path it
      points to the documentation. */
  lemma GoneNamesAlternative(endpoint: string, params: Option<Params>, err: TransportError)
    requires err.response.Some? && err.response.value.status == 410
    ensures Classify(endpoint, params, Some(err))
         == DeprecatedEndpointError(endpoint, if endpoint == "/pools" then PoolsAlternative else GenericAlternative)
    ensures endpoint == "/pools" ==>
              Contains(Classify(endpoint, params, Some(err)).Message(), ListByNetworkHint)
  {
    if endpoint == "/pools" {
      var lead := "network-specific endpoints like ";
      PartsOfConcat(lead, ListByNetworkHint, "");
      assert lead + ListByNetworkHint + "" == PoolsAlternative;
      OccursWithin("Please use ", PoolsAlternative, " instead. ", ListByNetworkHint, |lead|);
      var at := |"Please use "| + |lead|;
      OccursWithin(DeprecationNotice("/pools"), Suggestion(PoolsAlternative), MoreInformation, ListByNetworkHint, at);
      assert OccursAt(Classify(endpoint, params, Some(err)).Message(), ListByNetworkHint, |DeprecationNotice("/pools")| + at);
    }
  }

  lemma NotFoundTextMentionsNetwork()
    ensures Contains(Lower("Network not found"), "network")
  {
    var l := Lower("Network not found");
    assert l[0] == 'n' && l[1] == 'e' && l[2] == 't' && l[3] == 'w' && l[4] == 'o' && l[5] == 'r' && l[6] == 'k';
    assert l[..7] == "network";
    assert OccursAt(l, "network", 0);
  }

  /** A 404 "Network not found" on "/networks/<id>/pools" names `id`. */
  lemma MissingNetworkIsNamed(id: string, err: TransportError)
    requires id != [] && '/' !in id
    requires err.response == Some(HttpResponse(404, JObj(map["message" := JStr("Network not found")])))
    ensures Classify("/networks/" + id + "/pools", None, Some(err)) == NetworkNotFoundError(id)
  {
    var endpoint := "/networks/" + id + "/pools";
    NetworkCaptureOf(id, "/pools");
    NotFoundTextMentionsNetwork();
    var resp := err.response.value;
    assert Field(resp.data, "error").None?;
    assert ServerMessage(resp.data) == JStr("Network not found");
    NetworkMessageWins(endpoint, None, err, "Network not found");
    assert NetworkIdFor(endpoint, None) == id;
  }

  /** Without a response the error keeps the transport's message, or a default. */
  lemma ConnectionFailureKeepsMessage(endpoint: string, params: Option<Params>, err: TransportError)
    requires err.response.None?
    ensures Classify(endpoint, params, Some(err)).Message()
         == (if err.message != [] then err.message else UnknownError)
  {
  }

  /** `_get(endpoint, params)`. */
  method Get(client: DexPaprikaClient, endpoint: string, params: Option<Params>,
             now: int, storeNow: int, transport: Network)
      returns (r: Result<Json, SdkError>)
    requires client.Valid()
    modifies client.cache
    ensures client.Valid() && client.cache.config == old(client.cache.config)
    ensures r == GetOutcome(endpoint, params,
                   ReadThrough(old(client.cache.State()), client.cache.config, client.retryConfig,
                               client.baseUrl, endpoint, params, now, transport).result)
    ensures client.cache.State()
         == ReadState(old(client.cache.State()), client.cache.config, client.retryConfig,
                      client.baseUrl, endpoint, params, now, storeNow, transport)
  {
    var res;
    ghost var attempts, delays;
    res, attempts, delays := client.Get(endpoint, params, now, storeNow, transport);
    match res
    case Done(v) =>
      r := Ok(v);
    case Threw(e) =>
      r := Err(Classify(endpoint, params, e));
  }

  /** The GET a service method issues: the path and the parameter record
      (`None` when the method passes none). */
  datatype RequestSpec = RequestSpec(path: string, params: Option<Params>)

  /** A service method: argument validation, which rejects before any
      request is made, then `_get` on the request it built. */
  method Fetch(client: DexPaprikaClient, spec: Result<RequestSpec, SdkError>,
               now: int, storeNow: int, transport: Network)
      returns (r: Result<Json, SdkError>)
    requires client.Valid()
    modifies client.cache
    ensures client.Valid() && client.cache.config == old(client.cache.config)
    ensures spec.Err? ==> r == Err(spec.error) && client.cache.State() == old(client.cache.State())
    ensures spec.Ok? ==>
              && r == GetOutcome(spec.value.path, spec.value.params,
                        ReadThrough(old(client.cache.State()), client.cache.config, client.retryConfig,
                                    client.baseUrl, spec.value.path, spec.value.params, now, transport).result)
              && client.cache.State()
                 == ReadState(old(client.cache.State()), client.cache.config, client.retryConfig,
                              client.baseUrl, spec.value.path, spec.value.params, now, storeNow, transport)
  {
    if spec.Err? {
      return Err(spec.error);
    }
    r := Get(client, spec.value.path, spec.value.params, now, storeNow, transport);
  }

  /** `_post(endpoint, data, params)`: errors are passed through untyped. */
  method Post(client: DexPaprikaClient, endpoint: string, data: Json, params: Option<Params>, transport: Network)
      returns (r: RetryResult<Json>)
    ensures r == Run(PostOperation(client.baseUrl, endpoint, data, params, transport), client.retryConfig).result
  {
    ghost var attempts, delays;
    r, attempts, delays := client.Post(endpoint, data, params, transport);
  }
}

/** src/api/pools.ts: `PoolsAPI`. Each method validates its identifiers,
    fills in defaults with `??`, adds the optional keys only when they are
    truthy, and issues one GET. The model gives the request each method
    builds (or the error it rejects with); `BaseApi.Fetch` sends it. An
    omitted options object is the record whose fields are all `None`. */
module Pools {
  import opened Wrappers
  import opened Text
  import opened JsValues
  import opened Transport
  import opened Errors
  import opened Client
  import opened BaseApi

  datatype PoolListOptions = PoolListOptions(page: Option<int>, limit: Option<int>, sort: Option<string>, orderBy: Option<string>)
  datatype PoolDetailsOptions = PoolDetailsOptions(inversed: Option<bool>)
  datatype OHLCVOptions = OHLCVOptions(start: string, end: Option<string>, limit: Option<int>,
                                       interval: Option<string>, inversed: Option<bool>)
  datatype TransactionOptions = TransactionOptions(page: Option<int>, limit: Option<int>, cursor: Option<string>)

  const NoListOptions := PoolListOptions(None, None, None, None)

  const ListAlternative := "client.pools.listByNetwork(network, options) - specify a network like 'ethereum', 'solana', or 'fantom'"
  const NetworkRequiredHint := "Network ID is required. Use 'ethereum', 'solana', 'fantom', etc."
  const NetworkRequired := "Network ID is required"
  const DexRequired := "DEX ID is required"
  const PoolRequired := "Pool address is required"

  /** `new Error(message)` from argument validation. */
  function Invalid(message: string): SdkError {
    BuiltInError("Error", message)
  }

  /** `{ page, limit, sort, order_by }` with their defaults. */
  function ListParams(o: PoolListOptions): (p: Params)
    ensures Keys(p) == ["page", "limit", "sort", "order_by"]
    ensures p[0].1 == PNum(Coalesce(o.page, 0)) && p[1].1 == PNum(Coalesce(o.limit, 10))
    ensures p[2].1 == PStr(Coalesce(o.sort, "desc")) && p[3].1 == PStr(Coalesce(o.orderBy, "volume_usd"))
    ensures DistinctKeys(p)
  {
    [("page", PNum(Coalesce(o.page, 0))), ("limit", PNum(Coalesce(o.limit, 10))),
     ("sort", PStr(Coalesce(o.sort, "desc"))), ("order_by", PStr(Coalesce(o.orderBy, "volume_usd")))]
  }

  /** `list()`: rejects at once, without a request. */
  function List(o: PoolListOptions): (r: Result<RequestSpec, SdkError>)
    ensures r.Err? && r.error.IsDexPaprikaError() && r.error.Kind() == DeprecatedEndpointKind
    ensures r.Err? ==> r.error.endpoint == "/pools"
  {
    Err(DeprecatedEndpointError("/pools", ListAlternative))
  }

  function ListByNetwork(networkId: string, o: PoolListOptions): (r: Result<RequestSpec, SdkError>)
    ensures r.Err? <==> networkId == []
    ensures r.Err? ==> r.error == Invalid(NetworkRequiredHint)
    ensures r.Ok? ==> r.value.path == "/networks/" + networkId + "/pools" && r.value.params == Some(ListParams(o))
  {
    if networkId == [] then Err(Invalid(NetworkRequiredHint))
    else Ok(RequestSpec("/networks/" + networkId + "/pools", Some(ListParams(o))))
  }

  function ListByDex(networkId: string, dexId: string, o: PoolListOptions): (r: Result<RequestSpec, SdkError>)
    ensures r.Err? <==> networkId == [] || dexId == []
    ensures r.Err? ==> r.error == Invalid(if networkId == [] then NetworkRequired else DexRequired)
    ensures r.Ok? ==> r.value.path == "/networks/" + networkId + "/dexes/" + dexId + "/pools"
                      && r.value.params == Some(ListParams(o))
  {
    if networkId == [] then Err(Invalid(NetworkRequired))
    else if dexId == [] then Err(Invalid(DexRequired))
    else Ok(RequestSpec("/networks/" + networkId + "/dexes/" + dexId + "/pools", Some(ListParams(o))))
  }

  /** The validation shared by the per-pool methods. */
  function CheckPool(networkId: string, poolAddress: string): (r: Option<SdkError>)
    ensures r.None? <==> networkId != [] && poolAddress != []
    ensures r.Some? ==> r.value == Invalid(if networkId == [] then NetworkRequired else PoolRequired)
  {
    if networkId == [] then Some(Invalid(NetworkRequired))
    else if poolAddress == [] then Some(Invalid(PoolRequired))
    else None
  }

  function PoolPath(networkId: string, poolAddress: string): string {
    "/networks/" + networkId + "/pools/" + poolAddress
  }

  function GetDetails(networkId: string, poolAddress: string, o: PoolDetailsOptions): (r: Result<RequestSpec, SdkError>)
    ensures r.Err? <==> CheckPool(networkId, poolAddress).Some?
    ensures r.Err? ==> r.error == CheckPool(networkId, poolAddress).value
    ensures r.Ok? ==> r.value.path == PoolPath(networkId, poolAddress) && r.value.params.Some?
    ensures r.Ok? ==> (Keys(r.value.params.value) == ["inversed"] <==> o.inversed == Some(true))
    ensures r.Ok? ==> (r.value.params.value == [] <==> o.inversed != Some(true))
    ensures r.Ok? && o.inversed == Some(true) ==> Lookup(r.value.params.value, "inversed") == Some(PStr("true"))
    ensures r.Ok? ==> DistinctKeys(r.value.params.value)
  {
    var bad := CheckPool(networkId, poolAddress);
    if bad.Some? then Err(bad.value)
    else Ok(RequestSpec(PoolPath(networkId, poolAddress),
                        Some(if o.inversed == Some(true) then [("inversed", PStr("true"))] else [])))
  }

  /** `{ start, limit, interval }`, then `end` and `inversed` when truthy. */
  function OhlcvParams(o: OHLCVOptions): (p: Params)
    ensures |p| >= 3 && Keys(p)[..3] == ["start", "limit", "interval"]
    ensures p[0].1 == PStr(o.start) && p[1].1 == PNum(Coalesce(o.limit, 1)) && p[2].1 == PStr(Coalesce(o.interval, "24h"))
    ensures |p| == 3 + (if o.end.Some? && o.end.value != [] then 1 else 0) + (if o.inversed == Some(true) then 1 else 0)
    ensures o.end.Some? && o.end.value != [] ==> p[3] == ("end", PStr(o.end.value))
    ensures o.inversed == Some(true) ==> p[|p| - 1] == ("inversed", PStr("true"))
    ensures DistinctKeys(p)
  {
    [("start", PStr(o.start)), ("limit", PNum(Coalesce(o.limit, 1))), ("interval", PStr(Coalesce(o.interval, "24h")))]
    + (if o.end.Some? && o.end.value != [] then [("end", PStr(o.end.value))] else [])
    + (if o.inversed == Some(true) then [("inversed", PStr("true"))] else [])
  }

  function GetOHLCV(networkId: string, poolAddress: string, o: OHLCVOptions): (r: Result<RequestSpec, SdkError>)
    ensures r.Err? <==> CheckPool(networkId, poolAddress).Some?
    ensures r.Err? ==> r.error == CheckPool(networkId, poolAddress).value
    ensures r.Ok? ==> r.value.path == PoolPath(networkId, poolAddress) + "/ohlcv" && r.value.params == Some(OhlcvParams(o))
  {
    var bad := CheckPool(networkId, poolAddress);
    if bad.Some? then Err(bad.value)
    else Ok(RequestSpec(PoolPath(networkId, poolAddress) + "/ohlcv", Some(OhlcvParams(o))))
  }

  /** `{ page, limit }`, then `cursor` when truthy. */
  function TxParams(o: TransactionOptions): (p: Params)
    ensures |p| >= 2 && Keys(p)[..2] == ["page", "limit"]
    ensures p[0].1 == PNum(Coalesce(o.page, 0)) && p[1].1 == PNum(Coalesce(o.limit, 10))
    ensures |p| == 3 <==> o.cursor.Some? && o.cursor.value != []
    ensures |p| == 3 ==> p[2] == ("cursor", PStr(o.cursor.value))
    ensures |p| <= 3
    ensures DistinctKeys(p)
  {
    [("page", PNum(Coalesce(o.page, 0))), ("limit", PNum(Coalesce(o.limit, 10)))]
    + (if o.cursor.Some? && o.cursor.value != [] then [("cursor", PStr(o.cursor.value))] else [])
  }

  function GetTxs(networkId: string, poolAddress: string, o: TransactionOptions): (r: Result<RequestSpec, SdkError>)
    ensures r.Err? <==> CheckPool(networkId, poolAddress).Some?
    ensures r.Err? ==> r.error == CheckPool(networkId, poolAddress).value
    ensures r.Ok? ==> r.value.path == PoolPath(networkId, poolAddress) + "/transactions" && r.value.params == Some(TxParams(o))
  {
    var bad := CheckPool(networkId, poolAddress);
    if bad.Some? then Err(bad.value)
    else Ok(RequestSpec(PoolPath(networkId, poolAddress) + "/transactions", Some(TxParams(o))))
  }

  /** `getTransactions`: the same request as `getTxs`. */
  function GetTransactions(networkId: string, poolAddress: string, o: TransactionOptions): (r: Result<RequestSpec, SdkError>)
    ensures r.Err? <==> CheckPool(networkId, poolAddress).Some?
    ensures r.Err? ==> r.error == CheckPool(networkId, poolAddress).value
    ensures r.Ok? ==> r.value.path == PoolPath(networkId, poolAddress) + "/transactions" && r.value.params == Some(TxParams(o))
  {
    GetTxs(networkId, poolAddress, o)
  }

  /** `list()` fails the same way whatever it is given, names "/pools" and
      points to `listByNetwork` with a different text than a 410 from the server. */
  lemma ListAlwaysDeprecated(o1: PoolListOptions, o2: PoolListOptions)
    ensures List(o1) == List(o2)
    ensures List(o1).error.alternative != PoolsAlternative
    ensures IsPrefix("The /pools", List(o1).error.Message())
  {
    ListAlternativeDiffers();
    PoolsNoticeFirst(ListAlternative);
  }

  lemma ListAlternativeDiffers()
    ensures ListAlternative != PoolsAlternative
  {
    assert |ListAlternative| != |PoolsAlternative|;
  }

  /** Whatever the alternative, a deprecation of "/pools" opens with "The /pools". */
  lemma PoolsNoticeFirst(alternative: string)
    ensures IsPrefix("The /pools", DeprecatedEndpointError("/pools", alternative).Message())
  {
    DeprecatedMessageOrder("/pools", alternative);
    assert "The " + "/pools" == "The /pools";
  }

  /** Spelling out the defaults gives the very same request, so it shares
      the cache entry of the call without options. */
  lemma ExplicitDefaultsShareCacheEntry(networkId: string)
    requires networkId != []
    ensures ListByNetwork(networkId, NoListOptions)
         == ListByNetwork(networkId, PoolListOptions(Some(0), Some(10), Some("desc"), Some("volume_usd")))
  {
  }

  /** Listings of two different networks never share a cache entry. */
  lemma NetworksHaveSeparateCacheEntries(n1: string, o1: PoolListOptions, n2: string, o2: PoolListOptions)
    requires n1 != [] && n2 != [] && ':' !in n1 && ':' !in n2 && n1 != n2
    ensures CacheKey(ListByNetwork(n1, o1).value.path, ListByNetwork(n1, o1).value.params)
         != CacheKey(ListByNetwork(n2, o2).value.path, ListByNetwork(n2, o2).value.params)
  {
    var p1 := "/networks/" + n1 + "/pools";
    var p2 := "/networks/" + n2 + "/pools";
    assert ':' !in p1 && ':' !in p2;
    if CacheKey(p1, Some(ListParams(o1))) == CacheKey(p2, Some(ListParams(o2))) {
      CacheKeySeparatesEndpoints(p1, Some(ListParams(o1)), p2, Some(ListParams(o2)));
      NetworkPathInjective(n1, n2);
    }
  }

  lemma NetworkPathInjective(n1: string, n2: string)
    requires "/networks/" + n1 + "/pools" == "/networks/" + n2 + "/pools"
    ensures n1 == n2
  {
    var p1 := "/networks/" + n1 + "/pools";
    var p2 := "/networks/" + n2 + "/pools";
    assert |n1| == |n2|;
    assert n1 == p1[10..10 + |n1|];
    assert n2 == p2[10..10 + |n2|];
  }

  /** A 404 whose message mentions a network, on `listByNetwork`, names the
      network that was asked for. */
  lemma ListByNetworkNotFoundNamesNetwork(networkId: string, o: PoolListOptions, err: TransportError, text: string)
    requires networkId != [] && '/' !in networkId
    requires err.response.Some? && err.response.value.status == 404
    requires ServerMessage(err.response.value.data) == JStr(text) && Contains(Lower(text), "network")
    ensures var spec := ListByNetwork(networkId, o).value;
            Classify(spec.path, spec.params, Some(err)) == NetworkNotFoundError(networkId)
  {
    var spec := ListByNetwork(networkId, o).value;
    NetworkCaptureOf(networkId, "/pools");
    assert Lookup(ListParams(o), "network").None?;
    assert NetworkIdFor(spec.path, spec.params) == networkId;
    NetworkMessageWins(spec.path, spec.params, err, text);
  }

  /** A pool path, and any path below it, passes the "/pools/" test of `_get`. */
  lemma PoolPathMentionsPools(networkId: string, poolAddress: string, tail: string)
    ensures Contains(PoolPath(networkId, poolAddress) + tail, "/pools/")
  {
    var head := "/networks/" + networkId;
    assert PoolPath(networkId, poolAddress) + tail == head + "/pools/" + (poolAddress + tail);
    PartsOfConcat(head, "/pools/", poolAddress + tail);
  }

  /** The last segment of a pool path is the pool address. */
  lemma PoolPathLastSegment(networkId: string, poolAddress: string)
    requires poolAddress != [] && '/' !in poolAddress
    ensures PoolAddressFor(PoolPath(networkId, poolAddress)) == poolAddress
  {
    var head := "/networks/" + networkId + "/pools";
    assert PoolPath(networkId, poolAddress) == head + "/" + poolAddress;
    LastSegmentOf(head, poolAddress);
  }

  /** The last segment of the OHLCV path is the literal "ohlcv". */
  lemma OhlcvPathLastSegment(networkId: string, poolAddress: string)
    ensures PoolAddressFor(PoolPath(networkId, poolAddress) + "/ohlcv") == "ohlcv"
  {
    assert PoolPath(networkId, poolAddress) + "/ohlcv" == PoolPath(networkId, poolAddress) + "/" + "ohlcv";
    assert "ohlcv" == ['o'] + "hlcv";
    LastSegmentOf(PoolPath(networkId, poolAddress), "ohlcv");
  }

  /** The last segment of the transactions path is the literal "transactions". */
  lemma TransactionsPathLastSegment(networkId: string, poolAddress: string)
    ensures PoolAddressFor(PoolPath(networkId, poolAddress) + "/transactions") == "transactions"
  {
    assert PoolPath(networkId, poolAddress) + "/transactions" == PoolPath(networkId, poolAddress) + "/" + "transactions";
    assert "transactions" == ['t'] + "ransactions";
    LastSegmentOf(PoolPath(networkId, poolAddress), "transactions");
  }

  /** A 404 on `getDetails` that does not mention a network names the pool
      address that was asked for. */
  lemma DetailsNotFoundNamesPool(networkId: string, poolAddress: string, o: PoolDetailsOptions,
                                 err: TransportError, text: string)
    requires networkId != [] && poolAddress != [] && '/' !in poolAddress
    requires err.response.Some? && err.response.value.status == 404
    requires ServerMessage(err.response.value.data) == JStr(text) && !Contains(Lower(text), "network")
    ensures var spec := GetDetails(networkId, poolAddress, o).value;
            Classify(spec.path, spec.params, Some(err)) == PoolNotFoundError(poolAddress)
  {
    var spec := GetDetails(networkId, poolAddress, o).value;
    assert spec.path == PoolPath(networkId, poolAddress) + "";
    PoolPathMentionsPools(networkId, poolAddress, "");
    PoolPathLastSegment(networkId, poolAddress);
    PoolRuleGivesPoolError(spec.path, spec.params, err, text);
  }

  /** As written, a 404 on `getOHLCV` reports the last path segment, the
      literal "ohlcv", as the missing pool rather than the pool address. */
  lemma OhlcvNotFoundNamesLastSegment(networkId: string, poolAddress: string, o: OHLCVOptions,
                                      err: TransportError, text: string)
    requires networkId != [] && poolAddress != []
    requires err.response.Some? && err.response.value.status == 404
    requires ServerMessage(err.response.value.data) == JStr(text) && !Contains(Lower(text), "network")
    ensures var spec := GetOHLCV(networkId, poolAddress, o).value;
            Classify(spec.path, spec.params, Some(err)) == PoolNotFoundError("ohlcv")
  {
    var spec := GetOHLCV(networkId, poolAddress, o).value;
    PoolPathMentionsPools(networkId, poolAddress, "/ohlcv");
    OhlcvPathLastSegment(networkId, poolAddress);
    PoolRuleGivesPoolError(spec.path, spec.params, err, text);
  }

  /** As written, a 404 on `getTransactions` likewise reports the literal
      "transactions" as the missing pool. */
  lemma TransactionsNotFoundNamesLastSegment(networkId: string, poolAddress: string, o: TransactionOptions,
                                             err: TransportError, text: string)
    requires networkId != [] && poolAddress != []
    requires err.response.Some? && err.response.value.status == 404
    requires ServerMessage(err.response.value.data) == JStr(text) && !Contains(Lower(text), "network")
    ensures var spec := GetTransactions(networkId, poolAddress, o).value;
            Classify(spec.path, spec.params, Some(err)) == PoolNotFoundError("transactions")
  {
    var spec := GetTransactions(networkId, poolAddress, o).value;
    PoolPathMentionsPools(networkId, poolAddress, "/transactions");
    TransactionsPathLastSegment(networkId, poolAddress);
    PoolRuleGivesPoolError(spec.path, spec.params, err, text);
  }

  /** `listByNetwork('')` rejects before any request. */
  lemma EmptyNetworkRejected(o: PoolListOptions)
    ensures ListByNetwork("", o).Err? && !ListByNetwork("", o).error.IsDexPaprikaError()
    ensures ListByNetwork("", o).error.Message() == NetworkRequiredHint
  {
  }
}

/** dist/api/tokens.js: `TokensAPI`. Neither method validates its
    arguments; `getDetails` passes no parameter record at all. */
module Tokens {
  import opened Wrappers
  import opened Text
  import opened JsValues
  import opened Transport
  import opened Errors
  import opened Client
  import opened BaseApi

  datatype TokenPoolsOptions = TokenPoolsOptions(page: Option<int>, limit: Option<int>, sort: Option<string>,
                                                 orderBy: Option<string>, pairWith: Option<string>)

  function TokenPath(networkId: string, tokenAddress: string): string {
    "/networks/" + networkId + "/tokens/" + tokenAddress
  }

  /** `getDetails(networkId, tokenAddress)`. */
  function GetDetails(networkId: string, tokenAddress: string): (r: RequestSpec)
    ensures r.path == TokenPath(networkId, tokenAddress) && r.params.None?
  {
    RequestSpec(TokenPath(networkId, tokenAddress), None)
  }

  /** `{ page, limit, sort, order_by }`, then `address` when `pairWith` is truthy. */
  function PoolsParams(o: TokenPoolsOptions): (p: Params)
    ensures |p| >= 4 && Keys(p)[..4] == ["page", "limit", "sort", "order_by"]
    ensures p[0].1 == PNum(Coalesce(o.page, 0)) && p[1].1 == PNum(Coalesce(o.limit, 10))
    ensures p[2].1 == PStr(Coalesce(o.sort, "desc")) && p[3].1 == PStr(Coalesce(o.orderBy, "volume_usd"))
    ensures |p| == 5 <==> o.pairWith.Some? && o.pairWith.value != []
    ensures |p| == 5 ==> p[4] == ("address", PStr(o.pairWith.value))
    ensures |p| <= 5 && DistinctKeys(p)
  {
    [("page", PNum(Coalesce(o.page, 0))), ("limit", PNum(Coalesce(o.limit, 10))),
     ("sort", PStr(Coalesce(o.sort, "desc"))), ("order_by", PStr(Coalesce(o.orderBy, "volume_usd")))]
    + (if o.pairWith.Some? && o.pairWith.value != [] then [("address", PStr(o.pairWith.value))] else [])
  }

  /** `getPools(networkId, tokenAddress, options)`. */
  function GetPools(networkId: string, tokenAddress: string, o: TokenPoolsOptions): (r: RequestSpec)
    ensures r.path == TokenPath(networkId, tokenAddress) + "/pools" && r.params == Some(PoolsParams(o))
  {
    RequestSpec(TokenPath(networkId, tokenAddress) + "/pools", Some(PoolsParams(o)))
  }

  /** Token details are cached under the empty record's key. */
  lemma DetailsCachedUnderEmptyRecord(networkId: string, tokenAddress: string)
    ensures CacheKey(GetDetails(networkId, tokenAddress).path, GetDetails(networkId, tokenAddress).params)
         == TokenPath(networkId, tokenAddress) + ":{}"
  {
    CacheKeyOfAbsentParams(TokenPath(networkId, tokenAddress));
  }

  /** A 404 mentioning a network on token details names the requested network. */
  lemma DetailsNotFoundNamesNetwork(networkId: string, tokenAddress: string, err: TransportError, text: string)
    requires networkId != [] && '/' !in networkId
    requires err.response.Some? && err.response.value.status == 404
    requires ServerMessage(err.response.value.data) == JStr(text) && Contains(Lower(text), "network")
    ensures var spec := GetDetails(networkId, tokenAddress);
            Classify(spec.path, spec.params, Some(err)) == NetworkNotFoundError(networkId)
  {
    var spec := GetDetails(networkId, tokenAddress);
    assert spec.path == "/networks/" + networkId + ("/tokens/" + tokenAddress);
    NetworkCaptureOf(networkId, "/tokens/" + tokenAddress);
    NetworkMessageWins(spec.path, spec.params, err, text);
  }
}

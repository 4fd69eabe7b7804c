/** dist/api/dexes.js: `DexesAPI`. `listByNetwork` does not validate its argument. */
module Dexes {
  import opened Wrappers
  import opened Text
  import opened JsValues
  import opened Transport
  import opened Errors
  import opened BaseApi

  datatype PaginationOptions = PaginationOptions(page: Option<int>, limit: Option<int>)

  /** `listByNetwork(networkId, options)`. */
  function ListByNetwork(networkId: string, o: PaginationOptions): (r: RequestSpec)
    ensures r.path == "/networks/" + networkId + "/dexes"
    ensures r.params.Some? && Keys(r.params.value) == ["page", "limit"] && DistinctKeys(r.params.value)
    ensures Lookup(r.params.value, "page") == Some(PNum(Coalesce(o.page, 0)))
    ensures Lookup(r.params.value, "limit") == Some(PNum(Coalesce(o.limit, 10)))
  {
    RequestSpec("/networks/" + networkId + "/dexes",
                Some([("page", PNum(Coalesce(o.page, 0))), ("limit", PNum(Coalesce(o.limit, 10)))]))
  }

  /** A 404 mentioning a network on the DEX listing names the requested network. */
  lemma ListNotFoundNamesNetwork(networkId: string, o: PaginationOptions, err: TransportError, text: string)
    requires networkId != [] && '/' !in networkId
    requires err.response.Some? && err.response.value.status == 404
    requires ServerMessage(err.response.value.data) == JStr(text) && Contains(Lower(text), "network")
    ensures var spec := ListByNetwork(networkId, o);
            Classify(spec.path, spec.params, Some(err)) == NetworkNotFoundError(networkId)
  {
    var spec := ListByNetwork(networkId, o);
    NetworkCaptureOf(networkId, "/dexes");
    assert Lookup(spec.params.value, "network").None?;
    NetworkMessageWins(spec.path, spec.params, err, text);
  }
}

/** The boundary to the HTTP transport (axios in the source). A request either
    yields the response payload or fails with an error that may carry the
    server's response. The transport itself is an oracle: whatever it answers
    for a request on a given attempt is a parameter of the model. */
module Transport {
  import opened Wrappers
  import opened JsValues

  datatype HttpResponse = HttpResponse(status: int, data: Json)

  /** A rejected request: `error.message` and, when the server answered,
      `error.response`. */
  datatype TransportError = TransportError(message: string, response: Option<HttpResponse>)

  /** What one call of the retried operation did. */
  datatype Attempt<T> = Succeeded(value: T) | Fail(failure: TransportError)

  datatype Request =
    | GetRequest(url: string, params: Option<Params>)
    | PostRequest(url: string, body: Json, params: Option<Params>)

  /** The transport's answer to a request on a given attempt index. */
  type Network = (Request, nat) -> Attempt<Json>

  /** `error.response?.status` when it is truthy (a status of 0 counts as none). */
  function StatusOf(e: TransportError): (r: Option<int>)
    ensures r.Some? ==> r.value != 0 && e.response.Some? && e.response.value.status == r.value
    ensures e.response.Some? && e.response.value.status != 0 ==> r.Some?
  {
    if e.response.Some? && e.response.value.status != 0 then Some(e.response.value.status) else None
  }
}

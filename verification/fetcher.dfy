/** The market-data request and its status check. The HTTP exchange itself is
    an oracle: the caller supplies the response. */
module Fetcher {
  import opened Results
  import opened Assets

  /** Query parameters of the markets request. */
  datatype Query = Query(currency: string, order: string, perPage: nat, page: nat)

  /** The one request the program makes: first page of 50 assets in US
      dollars, largest market capitalisation first. */
  const MarketsQuery: Query := Query("usd", "market_cap_desc", 50, 1)

  /** A response to the markets request: status code and decoded records. */
  datatype Response = Response(status: int, payload: seq<Coin>)

  /** The request failed; carries the status code reported in the message. */
  datatype FetchError = RequestFailed(statusCode: int)

  /** Success status of the HTTP exchange. */
  const StatusOk: int := 200

  /** The payload is returned exactly when the status is 200; any other status
      is an error carrying that status. */
  function Fetch(response: Response): (r: Result<seq<Coin>, FetchError>)
    ensures r.Success? <==> response.status == StatusOk
    ensures r.Success? ==> r.value == response.payload
    ensures r.Failure? ==> r.error.statusCode == response.status
  {
    if response.status == StatusOk then Success(response.payload)
    else Failure(RequestFailed(response.status))
  }
}

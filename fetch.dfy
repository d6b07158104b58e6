/** The outcome of one request made by a page to the REST backend, and the
    "use the response if it has rows, otherwise the built-in sample list"
    choice several pages make with it. The request itself is not modelled. */
module Fetch {
  import opened Wrappers

  /** `Failed`: the request threw; `Received(data)`: it returned, with
      `response.data` present or missing. */
  datatype Response<T> = Failed | Received(data: Option<seq<T>>)

  /** `response.data && response.data.length > 0` */
  predicate HasData<T>(resp: Response<T>) {
    resp.Received? && resp.data.Some? && |resp.data.value| > 0
  }

  /** The non-empty response rows, or the fallback list on an empty or
      missing list and on a failed request. */
  function OrFallback<T>(resp: Response<T>, fallback: seq<T>): (r: seq<T>)
    ensures HasData(resp) ==> r == resp.data.value
    ensures !HasData(resp) ==> r == fallback
    ensures |fallback| > 0 ==> |r| > 0
  {
    if HasData(resp) then resp.data.value else fallback
  }
}

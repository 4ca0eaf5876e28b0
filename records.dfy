/** Values exchanged with the remote batch-lookup service, and the
    error-carrying result type used for each stage of a query. */
module Records {

  /** One address wrapped for submission (`ipQueryItem`). */
  datatype QueryItem = QueryItem(ip: string)

  /** One resolved record (`IPQueryResult`); every field may be empty. */
  datatype IPQueryResult = IPQueryResult(
    ip: string,
    status: string,
    country: string,
    city: string,
    org: string,
    isp: string)

  newtype byte = x: int | 0 <= x < 256

  /** An opaque Go `error` value. */
  datatype Error = Error(message: string)

  datatype Result<T> = Ok(value: T) | Err(error: Error)

  datatype Option<T> = None | Some(value: T)

  /** Wraps every address of `ips`, in order: the address of each item is
      the address at the same position. */
  function ItemsOf(ips: seq<string>): (items: seq<QueryItem>)
    ensures |items| == |ips|
    ensures forall k :: 0 <= k < |ips| ==> items[k].ip == ips[k]
  {
    seq(|ips|, k requires 0 <= k < |ips| => QueryItem(ips[k]))
  }
}

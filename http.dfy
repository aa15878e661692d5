/** What one HTTP request to a JSON endpoint produced, and how the clients turn it into a
    `Result` (the `get` and `authed_get` helpers of the two catalogue clients). */
module Http {
  import opened Wrappers

  /** A decoded body, a request that failed, or a body that did not decode as JSON. */
  datatype HttpOutcome<T> = Body(value: T) | RequestFailed(msg: string) | DecodeFailed(msg: string)

  /** A failed request becomes "<prefix>req: <msg>", an undecodable body
      "<prefix>parse: <msg>"; `prefix` is empty for the plain clients. */
  function Fetch<T>(o: HttpOutcome<T>, prefix: string): (r: Result<T>)
    ensures o.Body? <==> r.Ok?
    ensures o.Body? ==> r.value == o.value
    ensures o.RequestFailed? ==> r.error == prefix + "req: " + o.msg
    ensures o.DecodeFailed? ==> r.error == prefix + "parse: " + o.msg
  {
    match o
    case Body(v) => Ok(v)
    case RequestFailed(e) => Err(prefix + "req: " + e)
    case DecodeFailed(e) => Err(prefix + "parse: " + e)
  }
}

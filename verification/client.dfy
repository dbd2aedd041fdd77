/** How the browser side sees a call to the gateway: axios resolves with the
    body of a 2xx response and rejects otherwise; a rejection carries the
    response body's `error` field when a response arrived. */
module Client {
  import opened Common
  import Server

  /** A rejected gateway call: `err.response?.data?.error`. */
  datatype ClientFailure = ClientFailure(errorField: Option<string>)

  /** `err.response?.data?.error || fallback`: the text shown for a failure. */
  function ErrorText(f: ClientFailure, fallback: string): (t: string)
    ensures Truthy(f.errorField) ==> t == f.errorField.value
    ensures !Truthy(f.errorField) ==> t == fallback
    // A non-empty fallback guarantees that some text is shown.
    ensures fallback != "" ==> t != ""
  {
    OrElse(f.errorField, fallback)
  }

  /** A gateway response as axios delivers it to the caller. */
  function Received<T>(r: Result<T, Server.ErrorBody>): (c: Result<T, ClientFailure>)
    ensures r.Success? <==> c.Success?
    ensures r.Success? ==> c.value == r.value
    ensures r.Failure? ==> c.error.errorField == Some(r.error.error)
  {
    match r
    case Success(v) => Success(v)
    case Failure(e) => Failure(ClientFailure(Some(e.error)))
  }
}

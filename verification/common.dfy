/** Values shared by the gateway and the browser client: optional JSON
    fields, success/failure outcomes and JavaScript truthiness of strings. */
module Common {

  /** A JSON field that may be absent, `null` or `undefined`. */
  datatype Option<+T> = None | Some(value: T)

  /** The outcome of an awaited call: its value, or the error it threw. */
  datatype Result<+T, +E> = Success(value: T) | Failure(error: E)

  /** JavaScript truthiness of a possibly missing string: `undefined`,
      `null` and `""` are falsy, every other string is truthy. */
  predicate Truthy(s: Option<string>)
  {
    s.Some? && s.value != ""
  }

  /** The expression `s || fallback` for a possibly missing string. */
  function OrElse(s: Option<string>, fallback: string): (r: string)
    ensures Truthy(s) ==> Some(r) == s
    ensures !Truthy(s) ==> r == fallback
    // `s || fallback` is truthy exactly when one of its operands is.
    ensures Truthy(Some(r)) <==> Truthy(s) || Truthy(Some(fallback))
  {
    if Truthy(s) then s.value else fallback
  }
}

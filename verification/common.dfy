/** Values every view shares: optional JSON fields, the outcome of one HTTP request,
    and JavaScript truthiness for the prop and state fields the views test with `if`. */
module Common {

  /** A JSON field or state slot that may be `null`/`undefined` (None) or hold a value. */
  datatype Option<+T> = None | Some(value: T)

  /** How a request settles: the decoded JSON body, or the error the promise was rejected with. */
  datatype Response<+T> = Ok(body: T) | Failed(error: string)

  /** A string-valued field is truthy when it is present and not the empty string. */
  predicate Truthy(s: Option<string>)
  {
    s.Some? && s.value != ""
  }

  /** A number-valued field is truthy when it is present and not zero. */
  predicate TruthyNumber(n: Option<int>)
  {
    n.Some? && n.value != 0
  }
}

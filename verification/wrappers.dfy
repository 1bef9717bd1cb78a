/** Small shared datatypes: an optional value (JavaScript's `undefined`/`null`
    versus a present value) and the status/body pair an HTTP handler answers with. */
module Wrappers {

  /** `None` stands for a JavaScript value that is absent (`undefined` or `null`). */
  datatype Option<+T> = None | Some(value: T) {

    /** The carried value, or `default` when absent. */
    function GetOr(default: T): T {
      match this
      case Some(v) => v
      case None => default
    }
  }

  /** What an Express handler sends back: a success status with a body, or an
      error status with the `error` string of its JSON body. */
  datatype Reply<+T> =
    | Ok(status: int, value: T)
    | Fail(status: int, error: string)
  {
    predicate IsOk() { Ok? }
  }
}

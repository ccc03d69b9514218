/** Optional values, results and pass/fail outcomes: the model's stand-ins for
    Go's nil pointers and its (value, error) and plain error returns. */
module Wrappers {

  /** A possibly-absent value; `None` plays the role of a nil pointer. */
  datatype Option<+T> = None | Some(value: T)

  /** A value or an error, as a Go function returning `(*T, error)`. */
  datatype Result<+T, +E> = Ok(value: T) | Err(error: E)

  /** The outcome of a Go function that returns only an `error`: `Pass` is nil. */
  datatype Outcome<+E> = Pass | Fail(error: E)
}

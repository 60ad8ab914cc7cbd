/** Option and Result: the two failure-carrying shapes the model uses for Go's
    `(value, error)` returns and for nil-or-not error values. */
module Wrappers {

  /** A Go `error` that may be nil: `None` is nil. */
  datatype Option<+T> = None | Some(value: T)

  /** The outcome of an injected call that returns `(value, error)`. */
  datatype Result<+R, +E> = Success(value: R) | Failure(error: E)
}

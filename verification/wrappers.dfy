/**
 The failure-carrying values the rest of the model uses in place of Go's
 nil pointers and `error` returns.
 */
module Wrappers {

  /** A Go pointer or nil-able value: `None` is nil. */
  datatype Option<+T> = None | Some(value: T)

  /** A Go `(value, error)` pair where exactly one side is meaningful. */
  datatype Result<+R, +E> = Success(value: R) | Failure(error: E)

  /** A Go `error` return alone: `Pass` is a nil error. */
  datatype Outcome<+E> = Pass | Fail(error: E)
}

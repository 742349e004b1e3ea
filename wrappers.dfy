/** Option, Result and Outcome: the values that stand for Go's `(T, error)` returns,
    nil-able results and the zero-value-or-error conventions used by the exporter. */
module Wrappers {

  datatype Option<+T> = None | Some(value: T)

  /** A Go `(T, error)` pair where exactly one side is meaningful. */
  datatype Result<+T, +E> = Success(value: T) | Failure(error: E)

  /** A Go `error` return with no accompanying value: nil (Pass) or an error. */
  datatype Outcome<+E> = Pass | Fail(error: E)
}

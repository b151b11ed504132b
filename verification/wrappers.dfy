/** Failure-compatible wrappers used throughout the model. */
module Wrappers {

  /** Python's `Optional[T]`: `None` or a present value. */
  datatype Option<+T> = None | Some(value: T) {

    /** The value, or `default` when there is none. */
    function GetOr(default: T): T {
      match this
      case Some(v) => v
      case None => default
    }
  }

  /** The outcome of a computation that may raise: a value, or the exception raised. */
  datatype Result<+T, +E> = Success(value: T) | Failure(error: E)
}

/** Failure-compatible wrappers used across the model. */
module Wrappers {

  datatype Option<+T> = None | Some(value: T) {
    /** The wrapped value, or `default` when absent (JavaScript's `x ?? default`). */
    function GetOr(default: T): T {
      match this
      case Some(v) => v
      case None => default
    }
  }

  /** The source's `neverthrow` results: `ok(value)` or `err(error)`. */
  datatype Result<+R, +E> = Success(value: R) | Failure(error: E)
}

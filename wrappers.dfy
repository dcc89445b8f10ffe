/** Failure-compatible wrappers used across the model. `None` in an `Option<real>`
    score stands for the NaN value that the metrics produce on undefined input. */
module Wrappers {

  datatype Option<+T> = None | Some(value: T) {
    /** The wrapped value, or `default` when there is none. */
    function GetOr(default: T): T {
      match this
      case Some(v) => v
      case None => default
    }
  }

  /** A value, or the message of the exception the source would raise. */
  datatype Result<+T, +E> = Success(value: T) | Failure(error: E)
}

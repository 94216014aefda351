/** Failure-compatible wrappers used across the model. */
module Wrappers {

  /** A value that may be absent. */
  datatype Option<+T> = None | Some(value: T) {

    /** The wrapped value, or `default` when there is none. */
    function GetOr(default: T): T {
      match this
      case Some(v) => v
      case None => default
    }
  }

  /** Either a value or the reason none could be produced. */
  datatype Result<+R, +E> = Success(value: R) | Failure(error: E)
}

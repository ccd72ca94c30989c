/** Optional values and results, standing in for Go's nil pointers and
    (value, error) return pairs. */
module Wrappers {

  /** A value that may be absent: `None` plays the part of a nil pointer. */
  datatype Option<+T> = None | Some(value: T) {

    /** The wrapped value, or `default` when there is none. */
    function GetOr(default: T): T {
      match this
      case Some(v) => v
      case None => default
    }
  }

  /** The outcome of a call that either yields a value or fails with an error. */
  datatype Result<+R, +E> = Success(value: R) | Failure(error: E)
}

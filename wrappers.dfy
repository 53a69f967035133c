/** Option and Result, used for JavaScript's `null` and for rejected requests. */
module Wrappers {

  datatype Option<+T> = None | Some(value: T) {
    /** The value, or `default` for `None`. */
    function GetOr(default: T): T {
      match this
      case Some(v) => v
      case None => default
    }
  }

  datatype Result<+R, +E> = Success(value: R) | Failure(error: E)
}

/** Option and Result, used for JavaScript's `null`/`undefined` and for error responses. */
module Wrappers {

  datatype Option<+T> = None | Some(value: T) {
    /** The value when present, `default` when absent: `x || fallback` on a value that may be missing. */
    function GetOr(default: T): T {
      match this
      case Some(v) => v
      case None => default
    }
  }

  datatype Result<+R, +E> = Success(value: R) | Failure(error: E)
}

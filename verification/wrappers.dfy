/** Optional values and results with a user-facing error, shared by the rest of the model. */
module Wrappers {

  /** A value that may be absent: JavaScript's `null`/`undefined` next to a present value. */
  datatype Option<+T> = None | Some(value: T) {

    /** The wrapped value, or `default` when absent. */
    function GetOr(default: T): T {
      match this
      case Some(v) => v
      case None => default
    }
  }

  /** The outcome of an operation that may be refused with a user-facing message. */
  datatype Result<+R, +E> = Success(value: R) | Failure(error: E)
}

/** Optional values and results that may carry an error. */
module Wrappers {

  /** A value that may be absent: a nullable field or a missing parameter. */
  datatype Option<+T> = None | Some(value: T) {

    /** The value, or `default` when there is none. */
    function GetOr(default: T): T {
      match this
      case Some(v) => v
      case None => default
    }
  }

  /** The outcome of a request handler: a reply or an error reply. */
  datatype Result<+R, +E> = Success(value: R) | Failure(error: E)
}

/** Optional values and results, as the source's `T | undefined` and its thrown errors. */
module Wrappers {

  datatype Option<+T> = None | Some(value: T) {

    /** The value, or `default` when there is none. */
    function GetOr(default: T): T {
      match this
      case Some(v) => v
      case None => default
    }
  }

  /** A value, or the message of the error the source throws instead. */
  datatype Result<+T> = Success(value: T) | Failure(error: string)
}

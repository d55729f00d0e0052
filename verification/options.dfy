/** Optional values and results shared by the whole model. */
module Options {

  /** A value that may be absent (a missing dictionary key, a failed attempt). */
  datatype Option<+T> = None | Some(value: T) {

    /** The wrapped value, or `default` when absent: Python's `d.get(key, default)`. */
    function GetOr(default: T): T {
      match this
      case Some(v) => v
      case None => default
    }
  }

  /** Either a value or the exception that escaped. */
  datatype Result<+R, +E> = Success(value: R) | Failure(error: E)
}

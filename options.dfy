/** Optional values and results with an error, used by every other module. */
module Options {

  /** A value that may be absent: a missing JSON field, a missing storage key, NaN. */
  datatype Option<+T> = None | Some(value: T) {

    /** The value, or `default` when absent. */
    function GetOr(default: T): T {
      match this
      case Some(v) => v
      case None => default
    }
  }

  /** The outcome of an operation that can be refused. */
  datatype Result<+T, +E> = Ok(value: T) | Err(error: E)
}

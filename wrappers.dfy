/** Optional values and results with an error, as used throughout the model. */
module Wrappers {

  /** A value that may be absent (a JavaScript `undefined`/`null`, a missing line). */
  datatype Option<+T> = None | Some(value: T) {
    function GetOr(default: T): T {
      match this
      case Some(v) => v
      case None => default
    }
  }

  /** The outcome of an operation that can fail with an error of type E. */
  datatype Result<+T, +E> = Ok(value: T) | Err(error: E)
}

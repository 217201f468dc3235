/** Option and Result: the model's stand-ins for Kotlin's nullable values and thrown exceptions. */
module Wrappers {

  /** A value that may be absent (Kotlin's `T?`). */
  datatype Option<+T> = None | Some(value: T) {

    /** The value, or `default` when absent (Kotlin's `?:`). */
    function GetOr(default: T): T {
      match this
      case Some(v) => v
      case None => default
    }
  }

  /** Either a value or the error that the source would throw instead. */
  datatype Result<+R, +E> = Ok(value: R) | Err(error: E)
}

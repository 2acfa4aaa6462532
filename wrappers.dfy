/** Option and Result, used for nullable column entries and for error returns. */
module Wrappers {

  /** A value that may be absent: a null entry of a column is `None`. */
  datatype Option<+T> = None | Some(value: T) {

    /** The value, or `default` when absent (std::optional::value_or). */
    function GetOr(default: T): T {
      match this
      case Some(v) => v
      case None => default
    }
  }

  /** Either a value or the error that aborted the computation. */
  datatype Result<+R, +E> = Ok(value: R) | Err(error: E)
}

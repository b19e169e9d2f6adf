/**
 * Optional values (JavaScript's `null`/`undefined` next to a present value)
 * and outcomes that are either a value or the error a handler throws.
 */
module Wrappers {

  datatype Option<+T> = None | Some(value: T) {

    /** The value, or `default` when absent (the source's `x || default` on an object). */
    function GetOr(default: T): T {
      match this
      case Some(v) => v
      case None => default
    }
  }

  datatype Result<+T, +E> = Ok(value: T) | Err(error: E)
}

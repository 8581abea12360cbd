/** The two wrappers used across the model: an optional value and a result
    that is either a value or the thrown error. */
module Wrappers {

  datatype Option<+T> = None | Some(value: T)

  /** A computation that returned `value` or threw `error`. */
  datatype Result<+T, +E> = Ok(value: T) | Err(error: E)
}

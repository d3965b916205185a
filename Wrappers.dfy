/** Option and Result values used for the Go `(value, ok)` and `(value, error)` returns. */
module Wrappers {
  datatype Option<+T> = None | Some(value: T)

  datatype Result<+T, +E> = Ok(value: T) | Err(error: E)
}

/** Option and Result, the error-return shapes the Go code expresses with `(T, error)`. */
module Wrappers {
  datatype Option<+T> = None | Some(value: T)

  datatype Result<+T, +E> = Ok(value: T) | Err(error: E)
}

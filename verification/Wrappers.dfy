/** Results and optional values shared by the other modules. */
module Wrappers {

  datatype Option<+T> = None | Some(value: T)

  /** What a Go function returning `(T, error)` returns. */
  datatype Result<+T, +E> = Ok(value: T) | Err(error: E)
}

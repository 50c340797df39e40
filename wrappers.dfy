/** Small failure-carrying datatypes shared by the other modules. */
module Wrappers {

  /** A value that may be absent: Go's nil pointer or nil slice. */
  datatype Option<+T> = None | Some(value: T)

  /** A value or the error that prevented computing it: Go's `(T, error)` pair. */
  datatype Result<+T, +E> = Ok(value: T) | Err(error: E)
}

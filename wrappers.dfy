/** Outcomes of operations that can raise or find nothing. */
module Wrappers {

  /** The value an operation returns, or the error it raises. */
  datatype Result<+T, +E> = Ok(value: T) | Err(error: E)

  /** A value that may be absent, as a regular-expression search that may find no match. */
  datatype Option<+T> = None | Some(value: T)
}

/** Option and Result types used to model null values and thrown errors. */
module Wrappers {

  /** A value that may be missing (JavaScript's null). */
  datatype Option<T> = None | Some(value: T)

  /** The value an operation returns, or the error it throws. */
  datatype Result<T, E> = Ok(value: T) | Err(error: E)
}

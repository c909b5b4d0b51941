/** Failure-carrying return types shared by the other modules. */
module Wrappers {

  datatype Option<+T> = None | Some(value: T)

  /** The value of a computation, or the exception it raises. */
  datatype Result<+T, +E> = Ok(value: T) | Err(error: E)
}

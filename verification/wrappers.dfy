/** Failure-carrying results shared by the model. */
module Wrappers {

  /** A value or the error that prevented it (the source's `Result<T, E>`). */
  datatype Result<+T, +E> = Ok(value: T) | Err(error: E)

  /** Success without a value, or the error (the source's `Result<(), E>`). */
  datatype Outcome<+E> = Pass | Fail(error: E)
}

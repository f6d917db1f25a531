/** The optional value and the success-or-error value used throughout the model. */
module Wrappers {

  /** Python's `None` or a value. */
  datatype Option<+T> = None | Some(value: T)

  /** A value, or the exception that the source code would raise instead. */
  datatype Result<+R, +E> = Success(value: R) | Failure(error: E)
}

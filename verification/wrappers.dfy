/** Two small wrappers shared by the model: an optional value and a
    value-or-error result. */
module Wrappers {

  /** A value that may be absent, such as a lane that was not detected in a frame. */
  datatype Option<+T> = None | Some(value: T)

  /** The outcome of an operation that can raise: a value or the error it raised. */
  datatype Result<+R, +E> = Success(value: R) | Failure(error: E)
}

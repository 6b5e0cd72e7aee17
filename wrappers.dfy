/** Failure-compatible wrappers shared by the model. */
module Wrappers {
  /** A Python attribute that may hold `None`. */
  datatype Option<+T> = None | Some(value: T)

  /** A value or the exception raised instead of returning one. */
  datatype Result<+R, +E> = Success(value: R) | Failure(error: E)
}

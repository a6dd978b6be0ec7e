/** The exceptions the worker and its builder throw, and the wrappers that carry them
    in place of Java's `throw`. */
module Errors {

  /** `IllegalArgumentException` and `IllegalStateException`. */
  datatype Error = IllegalArgument | IllegalState

  /** A Java reference that may be null. */
  datatype Option<+T> = None | Some(value: T)

  /** A value, or the exception thrown instead of returning it. */
  datatype Result<+T> = Success(value: T) | Failure(error: Error)

  /** A call that returns normally or throws. */
  datatype Outcome = Pass | Fail(error: Error)
}

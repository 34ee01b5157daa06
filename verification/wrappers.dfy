/** Failure-carrying result types used across the model. */
module Wrappers {

  /** A value that may be missing (TypeScript's `T | undefined`). */
  datatype Option<+T> = None | Some(value: T)

  /** Either a value or the error an operation throws instead. */
  datatype Result<+T, +E> = Success(value: T) | Failure(error: E)

  /** An operation that either completes or throws, with no value of its own. */
  datatype Outcome<+E> = Pass | Fail(error: E)
}

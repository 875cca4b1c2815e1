/** Failure-carrying result types shared by the vault and the form logic. */
module Outcomes {

  datatype Option<+T> = None | Some(value: T)

  /** The result of an operation that either produces a value or raises an error. */
  datatype Result<+T, +E> = Success(value: T) | Failure(error: E)

  /** The result of an operation that is run for its effect and may raise an error. */
  datatype Outcome<+E> = Pass | Fail(error: E)
}

/** Failure-carrying wrappers that stand for the .NET exceptions and nullable values of the client. */
module Wrappers {

  datatype Option<+T> = None | Some(value: T)

  /** A value, or the exception that the .NET code would have thrown instead. */
  datatype Result<+R, +E> = Success(value: R) | Failure(error: E)

  /** The outcome of a `void` operation that may throw. */
  datatype Outcome<+E> = Pass | Fail(error: E)
}

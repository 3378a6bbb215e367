/** Failure-carrying datatypes used to model the exceptions of the Java code. */
module Wrappers {

  datatype Option<+T> = None | Some(value: T)

  /** A computation that produced a value or raised an error. */
  datatype Result<+R, +E> = Success(value: R) | Failure(error: E)

  /** A computation without a value that returned normally or raised an error. */
  datatype Outcome<+E> = Pass | Fail(error: E)
}

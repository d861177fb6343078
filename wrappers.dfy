/** Option and Result values used where the Java code returns null or throws. */
module Wrappers {

  datatype Option<+T> = None | Some(value: T)

  datatype Result<+R, +E> = Success(value: R) | Failure(error: E)

  /** The outcome of a `void` method that may throw `E`. */
  datatype Outcome<+E> = Pass | Fail(error: E)
}

/** The Option and Result datatypes used by the translator model. */
module Wrappers {

  datatype Option<+T> = None | Some(value: T)

  /** The outcome of an operation that either produces a value or fails with an error, in place of a raised exception. */
  datatype Result<+R, +E> = Success(value: R) | Failure(error: E)
}

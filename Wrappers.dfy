/** Option and Result, the failure-carrying values used throughout the model. */
module Wrappers {

  /** A possibly-absent value; `None` stands for a C# `null` reference. */
  datatype Option<+T> = None | Some(value: T)

  /** The outcome of an operation that may throw: `Failure` carries the exception. */
  datatype Result<+R, +E> = Success(value: R) | Failure(error: E)
}

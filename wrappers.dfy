/** The `Option` and `Result` datatypes used across the model. */
module Wrappers {

  /** A value that may be missing: JavaScript's `null`/`undefined` where the source allows it. */
  datatype Option<+T> = None | Some(value: T)

  /** The outcome of an operation that may throw: `Failure` stands for the exception. */
  datatype Result<+R, +E> = Success(value: R) | Failure(error: E)
}

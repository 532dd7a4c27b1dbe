/** Small failure-carrying datatypes used across the model. */
module Wrappers {

  /** A value that may be absent; `None` stands for JavaScript's `undefined`. */
  datatype Option<+T> = None | Some(value: T)

  /** The outcome of an operation that reports errors through a callback. */
  datatype Result<+R, +E> = Success(value: R) | Failure(error: E)
}

/** Option and Result, the two failure-carrying values the model returns. */
module Wrappers {

  datatype Option<+T> = None | Some(value: T)

  /** `Failure` stands for a Python exception: what raised it is in `error`. */
  datatype Result<+T, +E> = Success(value: T) | Failure(error: E)
}

/** Option and Result, the tagged outcomes used throughout the model. */
module Wrappers {

  datatype Option<+T> = None | Some(value: T)

  /** Success carries a value; Failure carries the error the Go code would return. */
  datatype Result<+R, +E> = Success(value: R) | Failure(error: E)
}

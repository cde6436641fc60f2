/** Failure-carrying values shared by the whole model. */
module Wrappers {

  /** A value that may be absent: a nil pointer in the Go program. */
  datatype Option<+T> = None | Some(value: T)

  /** Either a value or the error that stopped its computation. */
  datatype Result<+T, +E> = Success(value: T) | Failure(error: E)
}

/** Failure-carrying results shared by every module of the model. */
module Wrappers {

  /** A value that may be absent (Python's `None`). */
  datatype Option<T> = None | Some(value: T)

  /** The outcome of an operation that may raise: the value it returns or the error it raises. */
  datatype Result<T, E> = Success(value: T) | Failure(error: E)
}

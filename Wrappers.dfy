/** Failure-carrying values shared by the modules of this model. */
module Wrappers {

  /** A value that may be absent; `None` also stands for a call that failed. */
  datatype Option<+T> = None | Some(value: T)

  /** The outcome of an operation that either returns a value or raises an error. */
  datatype Result<+T, +E> = Success(value: T) | Failure(error: E)
}

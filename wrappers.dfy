/** Failure-carrying values shared by every module of the model. */
module Wrappers {

  datatype Option<+T> = None | Some(value: T)

  /** The value of a computation that either returns or throws (a rejected promise). */
  datatype Result<+R, +E> = Success(value: R) | Failure(error: E)
}

/** Failure-carrying wrappers shared by the modules of this project. */
module Wrappers {

  datatype Option<+T> = None | Some(value: T)

  /** A computation that either produces a value or raises an error. */
  datatype Result<+R, +E> = Success(value: R) | Failure(error: E)

  /** A check that either passes or raises an error. */
  datatype Outcome<+E> = Pass | Fail(error: E)
}

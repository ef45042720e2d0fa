/** Failure-carrying datatypes shared by the calculator's modules. */
module Wrappers {

  /** A value that may be absent: an empty or unparseable input field reads as None. */
  datatype Option<+T> = None | Some(value: T)

  /** The outcome of a computation that can be refused with a reason. */
  datatype Result<+T, +E> = Success(value: T) | Failure(error: E)
}

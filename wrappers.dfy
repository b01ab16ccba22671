/** Failure-carrying results shared by every module of the model. */
module Wrappers {

  /** A value that may be absent: a missing dictionary key, a missing file, a NaN. */
  datatype Option<+T> = None | Some(value: T)

  /** The outcome of an operation that the source can abort by raising an exception. */
  datatype Result<+T, +E> = Ok(value: T) | Err(error: E)
}

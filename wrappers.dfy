/** Option and Result, the two failure-carrying types the model uses. */
module Wrappers {

  datatype Option<+T> = None | Some(value: T)

  /** A computation that either produced a value or raised a Python exception. */
  datatype Result<+T> = Success(value: T) | Failure(error: string)
}

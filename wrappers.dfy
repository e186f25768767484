/** Option and Result, the two wrappers the validator's results are built from. */
module Wrappers {

  /** A value that may be absent (Python's `Optional[T]`, `None` being `None`). */
  datatype Option<+T> = None | Some(value: T)

  /** Either a validated value or the reason it was refused. */
  datatype Result<+R, +E> = Success(value: R) | Failure(error: E)
}

/** Option and Result values shared by the other modules. */
module Wrappers {

  /** A value that may be absent (Python's `None`). */
  datatype Option<+T> = None | Some(value: T)

  /** Either a value or the error that a request or a parse ended with. */
  datatype Result<+R, +E> = Success(value: R) | Failure(error: E)
}

/** Option and Result, for values the source may leave unset and for
    exceptions that the source lets propagate. */
module Wrappers {
  datatype Option<+T> = None | Some(value: T)

  datatype Result<+R, +E> = Success(value: R) | Failure(error: E)
}

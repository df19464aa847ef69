/** Failure-compatible wrappers used for the handlers' replies and the library oracles. */
module Outcomes {

  /** A value that may be missing: a library call that can fail without a useful error value. */
  datatype Option<+T> = None | Some(value: T)

  /** A handler's reply: either its response value or the error it returns. */
  datatype Result<+T, +E> = Success(value: T) | Failure(error: E)
}

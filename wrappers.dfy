/** Failure-compatible wrappers used by the loader and the interpreter to model
    Python exceptions as values. */
module Wrappers {

  datatype Option<+T> = None | Some(value: T)

  datatype Result<+R, +E> = Success(value: R) | Failure(error: E)
}

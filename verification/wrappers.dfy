/** Failure-carrying wrappers used throughout the model: an optional value, and the
    outcome of an operation that either produces a value or stops with an error. */
module Wrappers {

  /** A value that may be absent. Used for optional keys of the registry and of the
      generated documents: `None` means the key is omitted, not set to an empty value. */
  datatype Option<+T> = None | Some(value: T)

  /** Either a result or the error that ended the run. */
  datatype Result<+R, +E> = Success(value: R) | Failure(error: E)
}

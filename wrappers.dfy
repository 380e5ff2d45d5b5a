/** Optional values, and results of operations that may fail. */
module Wrappers {

  /** A value that may be absent (the source's `undefined` / `null`). */
  datatype Option<+T> = None | Some(value: T)

  /** The outcome of an operation that may be rejected with an error (the source's thrown `Error`). */
  datatype Result<+T, +E> = Success(value: T) | Failure(error: E)
}

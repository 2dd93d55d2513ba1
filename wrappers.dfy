/** Optional values and error-carrying results shared by every module of the model. */
module Wrappers {

  /** A value that may be absent: JavaScript's `null` / `undefined`. */
  datatype Option<+T> = None | Some(value: T)

  /** The outcome of an operation that may throw: a value, or the thrown error's message. */
  datatype Result<+T, +E> = Success(value: T) | Failure(error: E)
}

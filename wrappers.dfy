/** Optional values and fallible results, shared by every module. */
module Wrappers {

  /** A value that may be missing (JavaScript's `undefined` or `null` where the source tests for it). */
  datatype Option<+T> = None | Some(value: T)

  /** The outcome of a step that may throw. */
  datatype Result<+T, +E> = Success(value: T) | Failure(error: E)
}

/** Optional values and success-or-error results, shared by every module. */
module Wrappers {

  /** `T | null` (or `T | undefined`) in the source. */
  datatype Option<T> = None | Some(value: T)

  /** The outcome of a handler that can refuse with a user-facing error. */
  datatype Result<T, E> = Success(value: T) | Failure(error: E)
}

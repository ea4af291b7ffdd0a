/** Optional values and success-or-error results, shared by the other modules. */
module Wrappers {

  /** A value that may be absent. */
  datatype Option<T> = None | Some(value: T)

  /** The outcome of a call that either answers with a value or fails with an error. */
  datatype Result<T, E> = Success(value: T) | Failure(error: E)
}

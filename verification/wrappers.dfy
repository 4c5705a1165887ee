/** Optional values and results with a typed error, shared by every module. */
module Wrappers {

  /** A value that may be absent: `undefined`, `null` or a lookup that found nothing. */
  datatype Option<+T> = None | Some(value: T)

  /** The outcome of an operation that either yields a value or fails with an error. */
  datatype Result<+T, +E> = Success(value: T) | Failure(error: E)
}

/** Optional values and results with an error. */
module Wrappers {

  /** A value that may be missing (a pandas NaN cell, a failed lookup). */
  datatype Option<+T> = None | Some(value: T)

  /** A computation that either succeeds or raises the given fault. */
  datatype Result<+R, +E> = Success(value: R) | Failure(error: E)
}

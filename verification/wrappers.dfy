/** Optional values and error-carrying results shared by every module of the model. */
module Wrappers {

  /** Ruby's `nil`-or-value for things the model computes (not configuration values). */
  datatype Option<+T> = None | Some(value: T)

  /** A value, or the exception the source would raise instead. */
  datatype Result<+T, +E> = Success(value: T) | Failure(error: E)
}

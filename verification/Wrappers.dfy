/** Optional values and error returns shared by the whole model. */
module Wrappers {
  datatype Option<+T> = None | Some(value: T)

  /** A `throw` of the source becomes a Failure; everything else is a Success. */
  datatype Result<+T, +E> = Success(value: T) | Failure(error: E)
}

/** Optional values and results with an error, as the service's promises and
    the SDK's optional response fields are modelled. */
module Wrappers {

  /** A value that may be absent (`undefined` or `null` in the source). */
  datatype Option<+T> = None | Some(value: T)

  /** The outcome of an operation that either resolves with a value or throws. */
  datatype Result<+T, +E> = Success(value: T) | Failure(error: E)
}

/** Optional values and error-carrying results, used for the places where the
    system returns None or raises instead of producing a value. */
module Wrappers {

  datatype Option<+T> = None | Some(value: T)

  datatype Result<+T, +E> = Success(value: T) | Failure(error: E)
}

/** Optional values and success-or-error results, used where the Go code
    returns a nil pointer, a `nil` error or an `(value, error)` pair. */
module Wrappers {

  datatype Option<+T> = None | Some(value: T)

  datatype Result<+R, +E> = Success(value: R) | Failure(error: E)
}

/** Optional values and results with an error, used for the client's "not found"
    sentinel and for the outcome of a login. */
module Wrappers {

  datatype Option<+T> = None | Some(value: T)

  datatype Result<+R, +E> = Success(value: R) | Failure(error: E)
}

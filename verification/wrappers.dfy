/** Optional values and fallible results, used where the source returns `None`
    or raises an exception that its caller swallows. */
module Wrappers {

  datatype Option<+T> = None | Some(value: T)

  datatype Result<+T, +E> = Success(value: T) | Failure(error: E)
}

/** Optional values and error results, as the source's `Optional[...]`
    parameters and raised exceptions use them. */
module Wrappers {

  datatype Option<+T> = None | Some(value: T)

  datatype Result<+R, +E> = Success(value: R) | Failure(error: E)
}

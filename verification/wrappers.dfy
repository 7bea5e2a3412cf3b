/** Optional values and outcomes. `Option` models a nullable column value
    (pandas null); `Result` models a call that returns or raises. */
module Wrappers {

  datatype Option<+T> = None | Some(value: T)

  datatype Result<+R, +E> = Success(value: R) | Failure(error: E)
}

/** Optional values and results with an error, used wherever the Go code returns
    a nil pointer, a missing value or an `error`. */
module Wrappers {

  datatype Option<+T> = None | Some(value: T)

  datatype Result<+T, +E> = Ok(value: T) | Err(error: E)
}

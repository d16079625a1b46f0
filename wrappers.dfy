/** Optional values and outcomes: a Java reference that may be null, a search that may find nothing, a call that may throw. */
module Wrappers {

  datatype Option<+T> = None | Some(value: T)

  datatype Result<+T, +E> = Ok(value: T) | Err(error: E)
}

/** Optional values, fallible results and bytes, shared by every module of the project. */
module Wrappers {
  datatype Option<+T> = None | Some(value: T)

  datatype Result<+T, +E> = Ok(value: T) | Err(error: E)

  newtype byte = n: int | 0 <= n < 256
}

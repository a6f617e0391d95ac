/** Optional values and Go-style (value, error) results. */
module Wrappers {

  datatype Option<+T> = None | Some(value: T)

  /** A Go call returning `(T, error)`: `Err` carries the error's message. */
  datatype Result<+T> = Ok(value: T) | Err(error: string)
}

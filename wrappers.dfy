/** Optional values (Go's nil-able results) and value-or-error results (Go's `(T, error)` pairs). */
module Wrappers {

  datatype Option<+T> = None | Some(value: T)

  /** A Go `(value, err)` return in which the value is meaningless whenever `err != nil`. */
  datatype Result<+T, +E> = Ok(value: T) | Err(error: E)
}

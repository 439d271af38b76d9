/** Optional values and results with an error, shared by every module of the model. */
module Wrappers {

  /** A value that may be absent: a nullable column, a lookup that finds no row. */
  datatype Option<+T> = None | Some(value: T)

  /** The outcome of an operation that returns a value or throws an error. */
  datatype Result<+T, +E> = Ok(value: T) | Err(error: E)
}

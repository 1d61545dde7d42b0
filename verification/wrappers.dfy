/** Optional values and fallible results, as the modelled code uses them. */
module Wrappers {

  /** A value that may be absent: a query item for an optional component. */
  datatype Option<+T> = None | Some(value: T)

  /** The outcome of an operation that may fail with an error value. */
  datatype Result<+T, +E> = Ok(value: T) | Err(error: E)
}

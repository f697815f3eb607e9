/** Optional values and results, used by every service model. */
module Wrappers {
  /** A nullable column, or a lookup that may find no row. */
  datatype Option<+T> = None | Some(value: T)

  /** What a handler answers: a value, or the exception it throws. */
  datatype Result<+T, +E> = Ok(value: T) | Err(error: E)
}

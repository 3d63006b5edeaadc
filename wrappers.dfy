/** Option and Result, the two failure-carrying shapes the model uses. */
module Wrappers {

  /** A value that may be absent: Python's `Optional[T]` / `None`. */
  datatype Option<+T> = None | Some(value: T)

  /** A value or the error that took its place: a Python call that may raise. */
  datatype Result<+T, +E> = Ok(value: T) | Err(error: E)
}

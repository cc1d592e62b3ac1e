/** Types shared by every part of the model. */
module Common {

  /** A value that may be absent: a NULL column, a missing config key, a Python `None`. */
  datatype Option<+T> = None | Some(value: T)

  /** The outcome of an operation that may raise. */
  datatype Result<+T, +E> = Ok(value: T) | Err(error: E)
}

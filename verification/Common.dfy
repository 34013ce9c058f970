/** Small shared datatypes. */
module Common {
  /** A value that may be absent: a SQL NULL, a missing row, a map miss. */
  datatype Option<+T> = None | Some(value: T)

  /** A call that returns a value or throws. */
  datatype Result<+T, +E> = Ok(value: T) | Err(error: E)
}

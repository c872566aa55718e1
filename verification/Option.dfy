/** Values that may be absent, and calls that may raise. */
module Option {
  datatype Option<+T> = None | Some(value: T)

  datatype Result<+T, +E> = Ok(value: T) | Err(error: E)
}

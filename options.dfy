// Python's `None`-or-value, and the outcome of a call that may raise.

module Options {

  datatype Option<T> = None | Some(value: T)

  /** A value, or the exception that a call raised instead. */
  datatype Result<T, E> = Ok(value: T) | Err(error: E)
}

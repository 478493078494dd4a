/** Small value wrappers shared by every module of the model. */
module Common {

  /** A value that may be absent. */
  datatype Option<T> = None | Some(value: T)

  /** The result of an operation that returns Go's `(value, error)` pair:
      either the value or the error's message. */
  datatype Result<T> = Ok(value: T) | Err(message: string)

  function Min(a: int, b: int): int
  {
    if a <= b then a else b
  }
}

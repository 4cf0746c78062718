/** Failure-carrying values shared by the model: `Option` for a reference that
    may be null, `Result` for an operation that may throw. */
module Results {

  datatype Option<T> = None | Some(value: T)

  /** The exceptions the modelled code can raise, by kind. */
  datatype Error = IndexOutOfRange(index: int) | NullReference

  datatype Result<T> = Ok(value: T) | Err(error: Error)
}

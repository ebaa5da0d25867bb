/** The success-or-error values the source takes from the neverthrow library, and an optional value. */
module Results {

  datatype Option<+T> = None | Some(value: T)

  /** Exclusively a success payload or a typed error: a value is never both. */
  datatype Result<+T, +E> = Ok(value: T) | Err(error: E)
}

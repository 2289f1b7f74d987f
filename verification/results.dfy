/** Success-or-error values standing in for the exceptions the program raises. */
module Results {

  /** A computation that either produced a value or raised an error. */
  datatype Result<+T, +E> = Ok(value: T) | Err(error: E)

  /** A computation with no value that either completed or raised an error. */
  datatype Outcome<+E> = Pass | Fail(error: E)

  datatype Option<+T> = None | Some(value: T)
}

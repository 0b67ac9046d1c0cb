/** Failure-carrying values used in place of PHP's exceptions and nulls. */
module Results {

  /** A value that may be unset (a PHP property still holding null). */
  datatype Option<+T> = None | Some(value: T)

  /** The outcome of an operation that either returns a value or throws. */
  datatype Result<+T, +E> = Ok(value: T) | Err(error: E)

  /** The outcome of a check that returns nothing and may throw. */
  datatype Outcome<+E> = Pass | Fail(error: E)
}

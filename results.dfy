/** Failure-carrying return values, used wherever the PHP code throws. */
module Results {

  /** A value that may be absent (PHP `null`). */
  datatype Option<+T> = None | Some(value: T)

  /** The value a call returns, or the exception it throws. */
  datatype Result<+T, +E> = Success(value: T) | Failure(error: E)

  /** The outcome of a call that returns nothing (`void`) but may throw. */
  datatype Outcome<+E> = Pass | Fail(error: E)
}

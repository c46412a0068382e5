/** Failure-carrying values used where the modelled code raises or returns None. */
module Results {

  /** A value or its absence (Python's `None`). */
  datatype Option<+T> = None | Some(value: T)

  /** A value, or the error that the modelled code would raise instead. */
  datatype Result<+T, +E> = Success(value: T) | Failure(error: E)

  /** Completion of an operation that returns nothing on success. */
  datatype Outcome<+E> = Pass | Fail(error: E)
}

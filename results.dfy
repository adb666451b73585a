/** The two shapes of a computation that may not produce a value. */
module Results {

  /** A value that may be absent: JavaScript's null or NaN where the model needs one. */
  datatype Option<+T> = None | Some(value: T)

  /** A value, or the exception that was thrown instead of it. */
  datatype Result<+T, +E> = Success(value: T) | Failure(error: E)
}

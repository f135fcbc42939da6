/** Success/failure and presence/absence wrappers shared by the other modules. */
module Results {

  /** A value or the error that took its place (Go's `(T, error)` pair). */
  datatype Result<+T, +E> = Success(value: T) | Failure(error: E)

  datatype Option<+T> = None | Some(value: T)
}

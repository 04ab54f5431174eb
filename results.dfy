/** Go's `(value, error)` return pairs. */
module Results {

  datatype Option<T> = None | Some(value: T)

  /** The outcome of an operation that either yields a value or fails with an error. */
  datatype Result<T, E> = Ok(value: T) | Err(error: E) {
    predicate IsOk() { Ok? }
  }
}

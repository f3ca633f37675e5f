/** The failure-carrying results the other modules share: Go's (value, ok) and (value, error) pairs. */
module Results {
  datatype Option<+T> = None | Some(value: T)

  datatype Result<+T, +E> = Ok(value: T) | Err(error: E)
}

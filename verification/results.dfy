/** Failure-carrying wrappers shared by the filter's modules. */
module Results {

  /** An optional value: a record's description may be absent. */
  datatype Option<+T> = None | Some(value: T)

  /** Either a value or the reason the run cannot go on. */
  datatype Result<+T, +E> = Ok(value: T) | Err(error: E)
}

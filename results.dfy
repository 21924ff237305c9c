/** Failure-compatible wrappers used by the optimizer model. */
module Results {

  /** A value that may be absent (a pandas lookup that matched no row). */
  datatype Option<T> = None | Some(value: T)

  /** Either a value or the error that the source raises instead of returning. */
  datatype Result<T, E> = Ok(value: T) | Err(error: E)
}

/** Optional values and error-or-value results, shared by every module of the model. */
module Results {

  datatype Option<+T> = None | Some(value: T)

  /** A Go `(value, error)` pair: exactly one of the two is meaningful. */
  datatype Result<+T, +E> = Ok(value: T) | Fail(error: E)
}

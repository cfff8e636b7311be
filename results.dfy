/** Optional values and error-or-value results, shared by every module.
    A Go `nil` pointer becomes `None`; a Go `(value, error)` pair becomes a `Result`. */
module Results {

  datatype Option<+T> = None | Some(value: T)

  datatype Result<+T, +E> = Ok(value: T) | Err(error: E)
}

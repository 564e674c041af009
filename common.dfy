/** Failure-carrying values shared by every module of the model. */
module Common {

  /** A value that may be absent: Go's nil pointer or nil error. */
  datatype Option<T> = None | Some(value: T)

  /** A value or an error message: Go's `(T, error)` pair where exactly one half is meaningful. */
  datatype Result<T> = Ok(value: T) | Err(error: string)
}

/** Value types shared by every module of the model. */
module Common {

  datatype Option<+T> = None | Some(value: T)

  /** The outcome of a Go call that returns `(T, error)`. */
  datatype Result<+T> = Ok(value: T) | Err(error: string)
}

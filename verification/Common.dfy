/** Datatypes shared by the modules. */
module Common {

  /** A value that may be missing: Python's None, JavaScript's undefined. */
  datatype Option<+T> = None | Some(value: T)

  /** The result of code that may raise: a value, or the exception. */
  datatype Result<+T, +E> = Ok(value: T) | Err(error: E)
}

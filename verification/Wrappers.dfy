/** The optional value every module uses where the program has `None` or `null`. */
module Wrappers {
  datatype Option<+T> = None | Some(value: T)

  /** A request's result: a value, or the error the program raises. */
  datatype Result<+T, +E> = Ok(value: T) | Err(error: E)
}

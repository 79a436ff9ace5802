/** Result types shared by every component of the model. */
module Wrappers {

  /** A nullable column or an optional argument. */
  datatype Option<+T> = None | Some(value: T)

  /** A call that returns a value or raises. */
  datatype Result<+T, +E> = Ok(value: T) | Err(error: E)
}

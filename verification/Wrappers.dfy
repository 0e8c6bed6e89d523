/** The two failure-carrying datatypes the other modules share. */
module Wrappers {
  /** A nullable column or an absent value. */
  datatype Option<+T> = None | Some(value: T)

  /** A returned value, or the exception raised instead. */
  datatype Result<+T, +E> = Ok(value: T) | Err(error: E)
}

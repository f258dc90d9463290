/** Option and Result values used for Python's None returns and raised exceptions. */
module Wrappers {

  datatype Option<+T> = None | Some(value: T)

  /** A call that either returns a value or raises an error carrying a message. */
  datatype Result<+T> = Ok(value: T) | Err(message: string)
}

/** Python's `None`-or-value returns and its raised exceptions, as values. */
module Outcomes {

  /** A value that may be Python's `None`. */
  datatype Option<+T> = None | Some(value: T)

  /** The result of a call that either returns or raises. */
  datatype Result<+T, +E> = Ok(value: T) | Err(error: E)
}

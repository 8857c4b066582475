/** Failure-carrying values used wherever the source returns null, throws, or
    returns an Optional. */
module Wrappers {

  /** A nullable reference (`null` is `None`) or a Java `Optional`. */
  datatype Option<+T> = None | Some(value: T)

  /** The value of an operation that either returns or throws. */
  datatype Result<+T, +E> = Ok(value: T) | Err(error: E)

  /** The value of a check that either passes or throws. */
  datatype Outcome<+E> = Pass | Fail(error: E)
}

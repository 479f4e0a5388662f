/** Java's null and exceptions, as values. */
module Wrappers {

  /** A Java reference that may be null. */
  datatype Option<+T> = None | Some(value: T)

  /** The exceptions the modelled code can raise. */
  datatype Failure =
    | IndexOutOfBounds   // ArrayIndexOutOfBoundsException
    | NullPointer        // NullPointerException
    | IllegalArgument    // IllegalArgumentException

  /** A computation that returns a value or throws. */
  datatype Result<+T> = Ok(value: T) | Err(error: Failure)
}

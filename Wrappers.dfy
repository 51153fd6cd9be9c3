/** Option and Result values standing for Java's null and for a thrown exception. */
module Wrappers {

  /** `None` plays the part of a Java `null`. */
  datatype Option<+T> = None | Some(value: T)

  /** `Err` plays the part of an exception that leaves a method without a result. */
  datatype Result<+T, +E> = Ok(value: T) | Err(error: E)
}

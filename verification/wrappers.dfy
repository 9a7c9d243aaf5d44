/** Option and Result values standing in for Java's `null` and for thrown exceptions. */
module Wrappers {

  /** `None` plays the part of a Java `null` reference. */
  datatype Option<+T> = None | Some(value: T)

  /** `Failure` carries the message of the exception the source would throw. */
  datatype Result<+R, +E> = Success(value: R) | Failure(error: E)
}

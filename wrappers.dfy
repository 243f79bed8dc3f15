/** Plain wrappers for the Java `null` and for thrown exceptions. */
module Wrappers {

  /** A value that may be absent: the model of a nullable Java reference. */
  datatype Option<+T> = None | Some(value: T)

  /** The outcome of an operation that either returns a value or throws. */
  datatype Result<+T, +E> = Success(value: T) | Failure(error: E)
}

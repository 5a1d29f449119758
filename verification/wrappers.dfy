/** The optional value and the value-or-error result used across the model. */
module Wrappers {

  /** A value that may be missing: Java's `null` or a failed lookup. */
  datatype Option<+T> = None | Some(value: T)

  /** A value, or the error a Java method would throw instead of returning it. */
  datatype Result<+T, +E> = Success(value: T) | Failure(error: E)
}

/** The null-or-value and value-or-exception shapes of the Java code. */
module Wrappers {

  /** A Java reference that may be null. */
  datatype Option<+T> = None | Some(value: T) {
    function GetOr(default: T): T {
      match this
      case Some(v) => v
      case None => default
    }
  }

  /** A value, or the checked exception a Java method throws instead. */
  datatype Result<+T, +E> = Success(value: T) | Failure(error: E)
}

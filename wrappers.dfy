/** Option and Result, used for Java's null and for its thrown exceptions. */
module Wrappers {

  /** A value that may be absent; `None` stands for Java's `null`. */
  datatype Option<+T> = None | Some(value: T)

  /** Either a value or the error that the Java code throws instead of returning one. */
  datatype Result<+R, +E> = Success(value: R) | Failure(error: E)
}

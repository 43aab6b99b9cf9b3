/** Wrappers for Java's nullable references and exceptions. */
module Wrappers {

  /** A Java reference that may be null: `None` is null. */
  datatype Option<+T> = None | Some(value: T)

  /** The outcome of a Java call that either returns a value or throws. */
  datatype Result<+R, +E> = Success(value: R) | Failure(error: E)

  /** The outcome of a `void` Java call that either returns normally or throws. */
  datatype Outcome<+E> = Pass | Fail(error: E)
}

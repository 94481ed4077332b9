/** Option and Result, the failure-carrying values used in place of Java's null and exceptions. */
module Wrappers {

  /** `None` stands for Java's `null`. */
  datatype Option<+T> = None | Some(value: T)

  /** `Failure` stands for an exception thrown (or delivered as an error) instead of a value. */
  datatype Result<+R, +E> = Success(value: R) | Failure(error: E)
}

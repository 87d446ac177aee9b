/** Failure-compatible wrappers used in place of the source's null results and exceptions. */
module Wrappers {

  /** A value that may be absent: the model of a C# null reference. */
  datatype Option<+T> = None | Some(value: T) {
    /** The wrapped value, or `default` when absent (the C# `??` operator). */
    function GetOr(default: T): T {
      match this
      case Some(v) => v
      case None => default
    }
  }

  /** Either a value or the error that stopped the computation (an exception in the source). */
  datatype Result<+R, +E> = Ok(value: R) | Err(error: E)

  /** An operation that either passes or fails with an error, carrying no value. */
  datatype Outcome<+E> = Pass | Fail(error: E)
}

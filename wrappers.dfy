/** Failure-carrying result types used by every service operation. */
module Wrappers {

  datatype Option<+T> = None | Some(value: T)

  /** An operation that yields a value or fails with an error. */
  datatype Result<+T, +E> = Ok(value: T) | Err(error: E)

  /** An operation that only succeeds or fails (Go's bare `error` return). */
  datatype Outcome<+E> = Pass | Fail(error: E)
}

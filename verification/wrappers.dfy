/** Failure-carrying result types shared by the storage, parser and arithmetic models. */
module Wrappers {

  datatype Option<+T> = None | Some(value: T)

  /** The value of a computation, or the error the source raises or returns instead. */
  datatype Result<+T, +E> = Ok(value: T) | Err(error: E)

  /** A check that either passes or fails with an error (a `void` function that may throw). */
  datatype Outcome<+E> = Pass | Fail(error: E)
}

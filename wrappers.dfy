/** Option and Result values used for the source's `None` returns and raised errors. */
module Wrappers {

  datatype Option<+T> = None | Some(value: T)

  /** A computation that either succeeds with a value or fails with a message,
      standing for a Python function that returns or raises. */
  datatype Result<+T> = Success(value: T) | Failure(error: string)
}

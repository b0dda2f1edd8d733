/** Failure-carrying values used across the model for Python's `None` and raised errors. */
module Wrappers {
  datatype Option<+T> = None | Some(value: T)

  /** `Failure` stands for an exception the Python code raises; `error` names it. */
  datatype Result<+T> = Success(value: T) | Failure(error: string)
}

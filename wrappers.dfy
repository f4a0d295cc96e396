/** Failure-carrying values: Python's `None` and raised exceptions become
    explicit variants that callers must inspect. */
module Wrappers {

  datatype Option<+T> = None | Some(value: T)

  datatype Result<+T, +E> = Ok(value: T) | Err(error: E)
}

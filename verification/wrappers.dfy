/** Failure-carrying values used across the model: `Option` for lookups that may
    find nothing and `Result` for the fallible entry point. */
module Wrappers {

  datatype Option<+T> = None | Some(value: T)

  datatype Result<+R, +E> = Success(value: R) | Failure(error: E)
}

/** Failure-aware result types used by the model. */
module Wrappers {

  datatype Option<+T> = None | Some(value: T)

  /** The outcome of a computation that the source can abort with an
      exception. */
  datatype Result<+T, +E> = Ok(value: T) | Err(error: E)
}

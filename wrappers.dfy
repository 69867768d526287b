/** Option and Result, the failure-carrying values used throughout the model. */
module Wrappers {

  datatype Option<+T> = None | Some(value: T)

  /** The outcome of a step that may raise: `Err` stands for a Python exception. */
  datatype Result<+T, +E> = Ok(value: T) | Err(error: E)
}

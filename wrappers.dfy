/** Option and Result, the two failure-carrying datatypes of the model. */
module Wrappers {

  /** A possibly-missing value; in a numeric cell `None` stands for NaN. */
  datatype Option<+T> = None | Some(value: T)

  /** The outcome of a step that can raise: `Err` carries the exception. */
  datatype Result<+T, +E> = Ok(value: T) | Err(error: E)
}

/** Failure-carrying values shared by every module of the model. */
module Wrappers {

  /** A value that may be missing: `None` stands for JavaScript's `null`, `undefined` or `NaN`. */
  datatype Option<+T> = None | Some(value: T)

  /** The outcome of an operation that can throw: `Err` carries what was thrown. */
  datatype Result<+T, +E> = Ok(value: T) | Err(error: E)
}

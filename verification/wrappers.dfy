/** Failure-carrying result types shared by every module of the model. */
module Wrappers {

  /** A value that may be absent: `None` stands for JavaScript's `undefined`,
      Python's `None`, or a parse that did not succeed. */
  datatype Option<+T> = None | Some(value: T)

  /** The outcome of an operation that can fail with an error of type `E`. */
  datatype Result<+T, +E> = Ok(value: T) | Err(error: E)
}

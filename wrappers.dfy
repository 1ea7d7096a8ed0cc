/** Failure-compatible wrappers used across the model. */
module Wrappers {

  /** A value that may be absent; `None` stands for JavaScript's `undefined`. */
  datatype Option<+T> = None | Some(value: T)

  /** The outcome of an operation that can throw: `Err` carries the kind of exception. */
  datatype Result<+T> = Ok(value: T) | Err(error: string)
}

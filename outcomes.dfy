/** Optional values and success/failure results, shared by the other modules. */
module Outcomes {

  /** A value that may be absent; None also stands for JavaScript's `undefined`. */
  datatype Option<+T> = None | Some(value: T)

  /** The outcome of a step that either produces a value or fails with an error. */
  datatype Result<+T, +E> = Ok(value: T) | Err(error: E)
}

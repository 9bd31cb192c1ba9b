/** Optional values and results shared by every module of the model. */
module Wrappers {

  /** A value that may be absent: `undefined`/`null` in the source, or `NaN` for a failed parse. */
  datatype Option<+T> = None | Some(value: T)

  /** The outcome of an operation that either returns a value or throws an error. */
  datatype Result<+T, +E> = Ok(value: T) | Fail(error: E)
}

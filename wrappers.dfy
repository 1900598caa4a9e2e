/** Optional values and fallible results shared by the other modules. */
module Wrappers {

  /** A value that may be absent (the C# `null` reference). */
  datatype Option<+T> = None | Some(value: T)

  /** The outcome of an operation that either produces a value or stops with an error. */
  datatype Result<+T, +E> = Ok(value: T) | Err(error: E)
}

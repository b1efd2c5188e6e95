/** Optional values and results, standing in for the source's nulls and exceptions. */
module Wrappers {

  /** A value that may be absent (a C# reference that may be null). */
  datatype Option<+T> = None | Some(value: T)

  /** The outcome of an operation that may throw: its value, or the exception it raises. */
  datatype Result<+T, +E> = Ok(value: T) | Err(error: E)

  /** The outcome of an operation that returns nothing but may throw. */
  datatype Outcome<+E> = Pass | Fail(error: E)
}

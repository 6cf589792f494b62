/** Optional values and success-or-error results, used wherever the
    JavaScript code returns `null`/`undefined` or throws. */
module Wrappers {

  /** A value that may be absent (`null` or `undefined` in the source). */
  datatype Option<+T> = None | Some(value: T)

  /** The outcome of an operation that either returns a value or throws. */
  datatype Result<+T, +E> = Ok(value: T) | Err(error: E)
}

/** Optional values and success/failure results, used for JavaScript's
    `undefined` fields and for the exceptions a fetch can end in. */
module Wrappers {

  /** A value that may be absent (`undefined` in the source). */
  datatype Option<+T> = None | Some(value: T)

  /** The outcome of a step that can throw: its value, or the error it threw. */
  datatype Result<+R, +E> = Success(value: R) | Failure(error: E)
}

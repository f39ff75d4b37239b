/** Small failure-carrying datatypes used across the model. */
module Wrappers {

  /** A value that may be missing: `undefined` / `null` in the source. */
  datatype Option<+T> = None | Some(value: T)

  /** Either a value or a thrown error. */
  datatype Result<+R, +E> = Success(value: R) | Failure(error: E)
}

/** Failure-compatible datatypes shared by the whole model. */
module Wrappers {

  datatype Option<+T> = None | Some(value: T)

  /** The `(value, error)` pairs of the source: exactly one of the two is present. */
  datatype Result<+R, +E> = Success(value: R) | Failure(error: E)
}

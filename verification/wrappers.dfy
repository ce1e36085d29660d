/** Failure-carrying datatypes shared by the model. */
module Wrappers {

  /** A value that may be absent; stands for Go's `(value, ok)` pairs. */
  datatype Option<+T> = None | Some(value: T)

  /** Either a computed value or an error; stands for Go's `(value, error)` pairs and panics. */
  datatype Result<+R, +E> = Success(value: R) | Failure(error: E)
}

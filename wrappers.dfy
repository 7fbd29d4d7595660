/** Failure-carrying return values: the Go code's `(T, error)` pairs and `error` results. */
module Wrappers {

  /** An optional value; used for `error` results, where None means nil. */
  datatype Option<+T> = None | Some(value: T)

  /** A value or an error. */
  datatype Result<+R, +E> = Success(value: R) | Failure(error: E)
}

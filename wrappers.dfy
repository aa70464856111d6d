/** Option and Result values used for the early returns of the handlers. */
module Wrappers {

  datatype Option<+T> = None | Some(value: T)

  /** `Failure` carries the error message the Go code builds with `errors.New`. */
  datatype Result<+R, +E> = Success(value: R) | Failure(error: E)
}

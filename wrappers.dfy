/** Failure-carrying datatypes shared by every module of the model. */
module Wrappers {

  /** A value that may be absent: Go's nil pointer, a missing map entry or
      the `ok == false` half of a comma-ok result. */
  datatype Option<+T> = None | Some(value: T)

  /** A Go `(value, error)` pair: exactly one of the two is meaningful. */
  datatype Result<+T, +E> = Success(value: T) | Failure(error: E)

  /** The outcome of a Go call that either returns or panics. */
  datatype Outcome<+T> = Returned(value: T) | Panicked(message: string)
}

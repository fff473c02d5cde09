/** Option and Result, the two failure-carrying shapes the model uses for Go's
    nil-able values and for the (value, error) pairs its foreign calls return. */
module Wrappers {

  /** A value that may be absent: Go's nil pointer, nil interface or nil error. */
  datatype Option<+T> = None | Some(value: T)

  /** The outcome of a foreign call that either yields a value or fails with a message. */
  datatype Result<+R, +E> = Success(value: R) | Failure(error: E)
}

/** Option and Result, the two failure-carrying shapes the model uses for
    RPC calls that may fail and for conversions that may be rejected. */
module Wrappers {

  datatype Option<+T> = None | Some(value: T)

  datatype Result<+T, +E> = Success(value: T) | Failure(error: E)

  /** The outcome of running code that may panic. */
  datatype Run<+T> = Returns(value: T) | Panics
}

/** Option and Result, the two failure-carrying shapes the model uses in place of
    `undefined` and of thrown exceptions. */
module Wrappers {

  datatype Option<+T> = None | Some(value: T)

  /** A Success/Failure value: what a call returned, or what it threw. */
  datatype Result<+T, +E> = Success(value: T) | Failure(error: E)
}

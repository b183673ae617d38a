/** Option and Result: the scripts' `undefined` / `-1` results and thrown errors, as values. */
module Wrappers {

  datatype Option<+T> = None | Some(value: T)

  /** A thrown `Error` becomes `Failure` carrying its message. */
  datatype Result<+R, +E> = Success(value: R) | Failure(error: E)
}

/** Option and Result values for the absent values and the errors that the
    bootstrap code signals with None and with raised exceptions. */
module Wrappers {

  datatype Option<+T> = None | Some(value: T)

  datatype Result<+R, +E> = Success(value: R) | Failure(error: E)
}

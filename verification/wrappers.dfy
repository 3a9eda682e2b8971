/** Option and Result, used for pandas' missing values (NaN) and for failed submissions. */
module Wrappers {

  datatype Option<+T> = None | Some(value: T)

  datatype Result<+R, +E> = Success(value: R) | Failure(error: E)
}

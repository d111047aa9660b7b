/** Option and Result types used for the partial operations of the model
    (parseFloat's NaN, indexOf's -1, and the errors processEmissions throws). */
module Wrappers {

  datatype Option<+T> = None | Some(value: T)

  datatype Result<+R, +E> = Success(value: R) | Failure(error: E)
}

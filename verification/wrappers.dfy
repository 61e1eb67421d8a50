/** A success value or the error that stopped the computation, standing for a raised exception. */
module Wrappers {

  datatype Result<+T, +E> = Success(value: T) | Failure(error: E)
}

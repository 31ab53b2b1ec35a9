/** Option and Result: the absent pointer and the thrown exception of the C++ code. */
module Wrappers {

  /** A possibly-null pointer. */
  datatype Option<+T> = None | Some(value: T)

  /** An operation that either completes or throws. */
  datatype Result<+T, +E> = Success(value: T) | Failure(error: E)
}

/** Failure-carrying result types and the C string terminator, used across
    the model. */
module Wrappers {

  /** The byte that ends a C string; a newly sized shared-memory object is
      filled with it. */
  const NUL: char := '\0'

  datatype Option<+T> = None | Some(value: T)

  datatype Result<+R, +E> = Success(value: R) | Failure(error: E)
}

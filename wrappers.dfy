/** Option and Result values for the outcomes of calls whose behaviour is supplied from outside. */
module Wrappers {

  datatype Option<+T> = None | Some(value: T)

  datatype Result<+T, +E> = Success(value: T) | Failure(error: E)
}

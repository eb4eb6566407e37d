/** Option and Result: the model's stand-ins for Python's None and for an
    exception that ends a run. */
module Wrappers {

  datatype Option<+T> = None | Some(value: T)

  datatype Result<+T, +E> = Success(value: T) | Failure(error: E)
}

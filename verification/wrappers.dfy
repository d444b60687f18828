/** Wrappers shared by the model: an optional value and a value-or-error
    result (the model's stand-in for Python's None and raised exceptions). */
module Wrappers {

  datatype Option<+T> = None | Some(value: T)

  datatype Result<+R, +E> = Success(value: R) | Failure(error: E)
}

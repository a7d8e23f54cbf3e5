/** `Option` is Python's None-or-value; `Result` is a call that either
    returned a value or raised an exception. */
module Wrappers {

  datatype Option<+T> = None | Some(value: T)

  datatype Result<+R, +E> = Success(value: R) | Failure(error: E)
}

/** Failure-carrying datatypes used by every script model: Python's `False`
    returns, `sys.exit()` calls and uncaught exceptions become `Failure`. */
module Wrappers {

  datatype Option<+T> = None | Some(value: T)

  datatype Result<+T, +E> = Success(value: T) | Failure(error: E)
}

/** Failure-compatible wrappers shared by the other modules: an optional value
    and a success-or-error result standing in for a raised exception. */
module Wrappers {

  datatype Option<+T> = None | Some(value: T)

  datatype Result<+R, +E> = Success(value: R) | Failure(error: E)
}

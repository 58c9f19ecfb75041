/** Option and Result, used for absent attributes, skipped links and the
    exceptions that the page loader raises or swallows. */
module Wrappers {

  datatype Option<+T> = None | Some(value: T)

  datatype Result<+R, +E> = Success(value: R) | Failure(error: E)
}

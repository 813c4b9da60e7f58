/** Option and Result, used for JavaScript's null, Python's None and for
    operations that either produce a value or report an error. */
module Wrappers {

  datatype Option<+T> = None | Some(value: T)

  datatype Result<+R, +E> = Success(value: R) | Failure(error: E)
}

/** Optional values and results with an error, standing for JavaScript's
    `undefined` and for thrown exceptions. */
module Wrappers {

  datatype Option<+T> = None | Some(value: T)

  datatype Result<+R, +E> = Success(value: R) | Failure(error: E)
}

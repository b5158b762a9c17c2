/** Optional values and results with an error, used for JavaScript's `NaN`/`undefined`
    outcomes and for the frame decoder's errors. */
module Wrappers {

  datatype Option<+T> = None | Some(value: T)

  datatype Result<+R, +E> = Success(value: R) | Failure(error: E)
}

/** Optional values and results, standing for JavaScript's `undefined` and for
    the validation failures that the forms report with a toast. */
module Wrappers {

  datatype Option<+T> = None | Some(value: T)

  datatype Result<+T, +E> = Ok(value: T) | Err(error: E)
}

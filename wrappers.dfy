/** Optional values and results, standing for JavaScript's `undefined`/`null`
    and for thrown errors in the handlers. */
module Wrappers {

  datatype Option<+T> = None | Some(value: T)

  datatype Result<+T, +E> = Ok(value: T) | Err(error: E)
}

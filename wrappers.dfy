/** Optional values and results with an error, used for SQL NULL, `fetchone()`
    that finds nothing, and exceptions raised by the store. */
module Wrappers {

  datatype Option<+T> = None | Some(value: T)

  datatype Result<+R, +E> = Ok(value: R) | Err(error: E)
}

/** Optional values and results with an error, used for the `null` that an
    updater may return and for the "missing Provider" failure. */
module Wrappers {

  datatype Option<T> = None | Some(value: T)

  datatype Result<T, E> = Ok(value: T) | Err(error: E)
}

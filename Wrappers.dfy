/** Optional values and results with an error, for the places where the
    modelled code returns None or raises. */
module Wrappers {

  datatype Option<T> = None | Some(value: T)

  datatype Result<T, E> = Ok(value: T) | Err(error: E)

}

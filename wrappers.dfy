/** Optional values and fallible results, as the decoder and the mesh conversion return them. */
module Wrappers {

  /** An optional value: `None` where the source returns `None`. */
  datatype Option<+T> = None | Some(value: T)

  /** A value or a typed error, for the source's `Result<T, E>`. */
  datatype Result<+T, +E> = Ok(value: T) | Err(error: E)
}

/** Optional values and results with an error, used wherever the source
    returns `null`/`undefined` or throws. */
module Wrappers {

  datatype Option<T> = None | Some(value: T)

  datatype Result<T, E> = Ok(value: T) | Err(error: E)

  /** A result that carries no value on success. */
  datatype Outcome<E> = Pass | Fail(error: E)
}

/** Optional values and results, used where the source has `undefined`, `null` or a caught error. */
module Options {

  datatype Option<+T> = None | Some(value: T)

  datatype Result<+T, +E> = Ok(value: T) | Err(error: E)
}

/** Optional values and results with a named error, used wherever the source
    raises an exception or returns an error code. */
module Results {

  datatype Option<+T> = None | Some(value: T)

  datatype Result<+T, +E> = Ok(value: T) | Err(error: E)
}

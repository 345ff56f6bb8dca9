/** Optional values, and the outcome of an operation that either yields a value
    or fails with an error (Go's `(value, error)` return pair). */
module Results {

  datatype Option<T> = None | Some(value: T)

  datatype Result<T, E> = Ok(value: T) | Err(error: E)
}

/** Optional values and Go's `(value, error)` returns, written as datatypes. */
module Results {

  /** A value that may be absent: a nil pointer in the source. */
  datatype Option<+T> = None | Some(value: T)

  /** The result of a call returning `(value, error)`: either the value with a nil
      error, or no value and an error whose message is `error`. */
  datatype Result<+T> = Ok(value: T) | Err(error: string)
}

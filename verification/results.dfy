/** Optional values and typed failures, used where the PHP code returns
    `null`/`false` or throws. */
module Results {

  /** A value that may be absent (PHP `null`, or `false` from a parser). */
  datatype Option<+T> = None | Some(value: T)

  /** Either a value or a typed failure (a PHP exception). */
  datatype Result<+T, +E> = Success(value: T) | Failure(error: E)
}

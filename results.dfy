/** Optional values and error-carrying results shared by the query modules. */
module Results {

  /** A value that may be absent, as an optional route or query parameter is. */
  datatype Option<+T> = None | Some(value: T)

  /** Either the value a handler responds with or the error it reports. */
  datatype Result<+T, +E> = Success(value: T) | Failure(error: E)
}

/** Optional values and results with an error, as the modelled JavaScript code uses
    `undefined` and thrown exceptions. */
module Options {

  /** A value that may be absent (`undefined` in the source). */
  datatype Option<T> = None | Some(value: T)

  /** The outcome of an operation that may throw. */
  datatype Result<T, E> = Ok(value: T) | Err(error: E)
}

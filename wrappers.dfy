/** Optional values and the exceptions the calendar code raises, as values. */
module Wrappers {
  datatype Option<T> = None | Some(value: T)

  /** The Python exception classes that the modelled code raises on purpose. */
  datatype Error = ValueError | KeyError | NotImplementedError | OverflowError

  datatype Result<T> = Ok(value: T) | Err(error: Error)
}

/** Optional values and results with an error, for the source's nil
    returns and error returns. */
module Wrappers {

  datatype Option<T> = None | Some(value: T)

  datatype Result<T, E> = Ok(value: T) | Err(error: E)

  /** What a file written whole holds: nothing yet, the value it decodes
      to, or a damaged file, truncated and not written out in full. */
  datatype SavedFile<T> = NotWritten | Holds(value: T) | Damaged
}

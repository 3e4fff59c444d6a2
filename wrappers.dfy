/** Optional values and callback results shared by the other modules. */
module Wrappers {

  /** A value that may be absent (a JavaScript `null`). */
  datatype Option<+T> = None | Some(value: T)

  /** What a radio callback delivers: a value, or the error it was called with. */
  datatype Result<+T> = Ok(value: T) | Err(error: string)
}

/** Optional values and the outcome of a computation that may raise. */
module Wrappers {

  /** Python's `Optional[str]`: `None` or a value. */
  datatype Option<+T> = None | Some(value: T)

  /** A computation that either returns a value or raises an uncaught
      exception (`ValueError`, `IndexError`, ...), named by `error`. */
  datatype Result<+T> = Ok(value: T) | Failure(error: string)
}

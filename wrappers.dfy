/** Optional values (Java references that may be null) and outcomes that may have raised. */
module Wrappers {

  /** A Java reference that may be `null`: `None` stands for `null`. */
  datatype Option<+T> = None | Some(value: T)

  /** The outcome of a call that either returns a value or raises an exception. */
  datatype Result<+T> = Ok(value: T) | Err
}

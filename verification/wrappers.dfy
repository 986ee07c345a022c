/** Optional values and fallible results, the model's stand-ins for `null`/`undefined`
    and for thrown errors. */
module Wrappers {

  /** `None` models JavaScript's `null` or `undefined`. */
  datatype Option<+T> = None | Some(value: T)

  /** A computation that either produces a value or fails with a message. */
  datatype Result<+T> = Ok(value: T) | Err(message: string)
}

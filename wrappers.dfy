/** Optional values (JavaScript's `undefined`) and the decoders' failure. */
module Wrappers {

  /** `None` stands for JavaScript's `undefined`. */
  datatype Option<+T> = None | Some(value: T)

  /** The one error the decoders raise: the string "invalid notify". */
  datatype Error = InvalidNotify

  /** The outcome of a decoder: a value, or the thrown "invalid notify". */
  datatype Result<+T> = Ok(value: T) | Err(error: Error)
}

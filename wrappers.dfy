/** Option and Result, the model's stand-ins for Python's None and raised exceptions. */
module Wrappers {

  datatype Option<+T> = None | Some(value: T)

  /** `Err(msg)` is a raised exception whose text is `msg`. */
  datatype Result<+T> = Ok(value: T) | Err(msg: string)

  /** Bytes are integers in [0, 256). */
  type byte = x: int | 0 <= x < 256
}

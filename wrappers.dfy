/** Optional values and the error returns of the logstack core. */
module Wrappers {

  /** Python's `X | None`. */
  datatype Option<+T> = None | Some(value: T) {
    function GetOr(default: T): T {
      match this
      case Some(v) => v
      case None => default
    }
  }

  /** The exceptions the modelled operations can raise. */
  datatype Error =
    | KeyError(key: string)     // a dictionary lookup with an unknown key
    | ValueError(reason: string) // a rejected argument, or int() given a non-integer

  /** Either the value an operation returns or the exception it raises. */
  datatype Result<+T> = Ok(value: T) | Err(error: Error)
}

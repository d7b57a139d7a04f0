/** Failure-carrying values shared by every module of the model.

    Python signals failure by raising; the model returns an `Err` carrying the
    exception class that the Python code raises and its message. */
module Wrappers {

  /** Python's `X | None`. */
  datatype Option<+T> = None | Some(value: T) {

    /** `x or default` for an optional value. */
    function GetOr(default: T): T {
      match this
      case Some(v) => v
      case None => default
    }
  }

  /** The Python exceptions that the modelled code raises or lets through. */
  datatype Error =
    | TypeError(message: string)
    | KeyError(message: string)
    | RuntimeError(message: string)
    | ValidationError(message: string)
      /** Any exception raised by caller-supplied code, e.g. a predicate. */
    | Raised(message: string)

  /** Either the value a call returns or the exception it raises. */
  datatype Result<+T> = Ok(value: T) | Err(error: Error)
}

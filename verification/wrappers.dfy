// Option and Result values for the exceptions and missing values of the
// add-on: every Python exception that the modelled code raises or lets
// escape becomes an Err carrying the kind of exception.
module Wrappers {

  datatype Option<T> = None | Some(value: T)

  /** The Python exception kinds the modelled code raises. */
  datatype Error =
    | RuntimeError(message: string)
    | ValueError(message: string)
    | IndexError
    | KeyError
    | ZeroDivisionError
    | StopIteration
    | AssertionError
    | OSError(message: string)
    | AttributeError

  datatype Result<T> = Ok(value: T) | Err(error: Error)

  /** A list result with prefix put in front of it; an error stays as it is. */
  function Prepend<T>(prefix: seq<T>, r: Result<seq<T>>): Result<seq<T>>
  {
    match r
    case Ok(v) => Ok(prefix + v)
    case Err(e) => Err(e)
  }
}

/** Option and Result values, and the Python exceptions the modelled code raises. */
module Wrappers {

  datatype Option<+T> = None | Some(value: T)

  /** The exception classes the modelled code raises or lets through. */
  datatype Error =
    | ValueError(message: string)
    | RuntimeError(message: string)
    | KeyError(key: string)
    | TypeError(message: string)
    | ZeroDivisionError
    /** an exception raised inside the plotting or dataframe library */
    | LibraryError

  /** A value, or the exception raised instead of returning it. */
  datatype Result<+T> = Ok(value: T) | Err(error: Error)

  /** A validation step: it passes, or it raises. */
  datatype Outcome = Pass | Fail(error: Error)
}

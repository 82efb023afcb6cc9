/** Option, Result and the Python exceptions that the modelled code can raise. */
module Wrappers {

  /** A value that may be absent, e.g. a dictionary lookup. */
  datatype Option<+T> = None | Some(value: T)

  /** The exceptions raised by the modelled functions. */
  datatype Error =
    | KeyError(key: string)        // a missing column or dictionary key
    | ValueError(message: string)  // an explicit `raise ValueError(...)`
    | IndexError                   // an out-of-range position in a list or array
    | ZeroDivisionError            // a Python float division by zero

  /** Either a value or the exception that ended the call. */
  datatype Result<+T> = Ok(value: T) | Err(error: Error)
}

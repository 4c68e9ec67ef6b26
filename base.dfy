/** Values shared by every part of the model: optional values, results that carry
    the Python exception a step raises, and the exception classes themselves. */
module Base {

  datatype Option<+T> = None | Some(value: T)

  /** The Python exception classes that the modelled code raises or catches. */
  datatype Error =
    | ConnectionError
    | KeyError
    | ValueError
    | IndexError
    | TypeError
    | NameError          // also UnboundLocalError, its subclass
    | FileNotFoundError
    | OtherError(name: string)

  /** A value, or the exception raised while computing it. */
  datatype Result<+T> = Ok(value: T) | Err(error: Error)

  /** A step with no value of interest: it either completes or raises. */
  datatype Outcome = Pass | Fail(error: Error)
}

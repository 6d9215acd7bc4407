/** Failure-carrying results and the Python exceptions the modelled code raises. */
module Wrappers {

  datatype Option<+T> = None | Some(value: T)

  /** The exception classes raised by the modelled functions. */
  datatype PyError =
    | ValueError      // positional arguments, unknown model type, malformed "inst,port" string
    | KeyError        // missing dictionary key
    | AssertionError  // a failed `assert` statement
    | TypeError       // an operand of the wrong type

  /** A value or the exception that was raised instead of returning it. */
  datatype Result<+T> = Ok(value: T) | Err(error: PyError)

  /** The outcome of a procedure that returns nothing but may raise. */
  datatype Outcome = Pass | Fail(error: PyError)
}

/** Option and Result, and the Python exceptions that the modelled code raises or catches. */
module Wrappers {

  datatype Option<+T> = None | Some(value: T) {
    function GetOr(default: T): T {
      match this
      case Some(v) => v
      case None => default
    }
  }

  datatype Result<+T, +E> = Ok(value: T) | Err(error: E)

  /** The exceptions that matter to the control flow of the modelled code. */
  datatype Exception =
    | AttributeError                // an attribute looked up on a value that lacks it
    | RuntimeError(message: string)
    | IOError(message: string)
    | ValueError(text: string)      // `int()` met a text that is not a number
    | IndexError                    // a list was indexed past its end
    | Other(name: string)           // any other exception raised by foreign code
}

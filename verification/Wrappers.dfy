/** Plain values shared by the modules. */
module Wrappers {
  datatype Option<+T> = None | Some(value: T)

  /** The exceptions that the parsers of the program raise. */
  datatype Error = TypeError | ValueError | AttributeError | OtherError(code: int)

  datatype Result<+T> = Ok(value: T) | Err(error: Error)
}

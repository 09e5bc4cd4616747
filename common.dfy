/** Failure-carrying wrappers shared by the modules of the bot model. */
module Common {

  /** Python's `None` or a present value. */
  datatype Option<+T> = None | Some(value: T)

  /** A value, or the exception that a Python call would raise instead. */
  datatype Result<+T, +E> = Ok(value: T) | Err(error: E)
}

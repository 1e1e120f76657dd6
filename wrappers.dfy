/** Option and Result values for the error paths of the model. */
module Wrappers {

  datatype Option<+T> = None | Some(value: T)

  /** A computation that either produced a value or raised an exception
      whose text is `message` (what `str(e)` gives). */
  datatype Result<+T> = Ok(value: T) | Err(message: string)
}

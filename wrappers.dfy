/** Option and Result types shared by the modules of this model. */
module Wrappers {

  datatype Option<+T> = None | Some(value: T)

  /** A computation that either yields a value or fails with an error message,
      standing for a thrown JavaScript Error. */
  datatype Result<+T> = Ok(value: T) | Err(message: string)
}

/** Option and Result values used for the source's missing values and its thrown errors. */
module Wrappers {

  datatype Option<+T> = None | Some(value: T)

  /** `Err` carries the message the source throws or returns with `success: false`. */
  datatype Result<+T> = Ok(value: T) | Err(message: string)
}

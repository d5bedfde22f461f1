/** Option and Result, used for the nullable SDL handles and for the C++
    exceptions that the viewer lets unwind to its top-level handler. */
module Wrappers {

  datatype Option<+T> = None | Some(value: T)

  /** `Err` carries the text of the exception (`what()`). */
  datatype Result<+T> = Ok(value: T) | Err(error: string)
}

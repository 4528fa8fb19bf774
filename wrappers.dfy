/** Option and Result types shared by the model. A failed handler call in the
    controller answers `{success: false, message}`; `Err` carries that message. */
module Wrappers {

  datatype Option<+T> = None | Some(value: T)

  datatype Result<+T> = Ok(value: T) | Err(message: string)
}

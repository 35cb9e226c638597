/** Option and Result values shared by the modules of this model. */
module Wrappers {

  datatype Option<+T> = None | Some(value: T)

  /** The outcome of a step that can stop the whole generator run with a message. */
  datatype Result<+T> = Success(value: T) | Failure(error: string)
}

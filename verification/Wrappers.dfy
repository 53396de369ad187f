/** Result types shared by the whole model. */
module Wrappers {
  datatype Option<+T> = None | Some(value: T)

  datatype Result<+T, +E> = Ok(value: T) | Err(error: E)

  /**
   How a request to the server ended: with a reply; with an error and nothing changed; or carried out, its reply
   lost, which the operator cannot tell from an error.
   */
  datatype Reply = Answered | Refused | Lost
}

/** Failure-carrying values shared by the whole model.
    `Result` stands for a JavaScript call that either returns a value or throws an
    Error whose `message` is kept. */
module Wrappers {

  datatype Option<+T> = None | Some(value: T)

  datatype Result<+T> = Ok(value: T) | Err(message: string)
}

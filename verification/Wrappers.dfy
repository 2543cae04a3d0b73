/** The two result shapes that every component below shares. */
module Wrappers {

  /** A value that may be absent (`Option` in the Rust sources, `null` or `undefined` in the TypeScript ones). */
  datatype Option<+T> = None | Some(value: T)

  /** A value or the message of the error that was returned or thrown instead. */
  datatype Result<+T> = Ok(value: T) | Err(message: string)
}

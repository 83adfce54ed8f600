/** Kotlin's nullable values (`T?`) and the few helpers the app uses on them. */
module Wrappers {

  /** `T?`: `None` stands for Kotlin's `null`. */
  datatype Option<+T> = None | Some(value: T)

  /** Either a value or an error message (used where the source returns early with a message). */
  datatype Result<+T, +E> = Ok(value: T) | Err(error: E)
}

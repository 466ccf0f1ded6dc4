/** Failure-carrying values shared by the whole model.
    Go returns `(value, error)` pairs; here a `Result` carries either the value or the
    error's text, and an `Option<string>` stands for a bare `error` (None is `nil`). */
module Wrappers {

  datatype Option<+T> = None | Some(value: T)

  datatype Result<+T> = Ok(value: T) | Err(msg: string)
}

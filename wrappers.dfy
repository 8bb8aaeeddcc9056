/** Option and Result, used for values the source leaves absent (`dict.get`) and for the
    exceptions that end a script run. */
module Wrappers {

  datatype Option<+T> = None | Some(value: T)

  datatype Result<+T> = Success(value: T) | Failure(error: string)
}

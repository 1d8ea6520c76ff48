/** Failure-carrying datatypes shared by the model: a Python value that may be
    absent, a computation that may raise, and a check that may fail. */
module Wrappers {

  datatype Option<+T> = None | Some(value: T)

  datatype Result<+R, +E> = Success(value: R) | Failure(error: E)

  datatype Outcome<+E> = Pass | Fail(error: E)

  /** The Python exceptions the modelled code raises. */
  datatype Exception =
    | ValueError(message: string)
    | TypeError
    | IndexError
    | NotImplementedError
}

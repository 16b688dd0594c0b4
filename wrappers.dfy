/** Option and Result, and the .NET exceptions the todo core can raise. */
module Wrappers {

  /** A value that may be absent: a null reference, a missing file. */
  datatype Option<+T> = None | Some(value: T)

  /** The outcome of a call that either returns a value or throws. */
  datatype Result<+R, +E> = Success(value: R) | Failure(error: E)

  /** The exceptions that escape from the core unchanged. */
  datatype Exception =
    | FormatException          // int.Parse, DateTime.Parse or bool.Parse rejected its text
    | OverflowException        // int.Parse read a number outside the 32-bit range
    | NotImplementedException  // the flat-file store has no direct create
}

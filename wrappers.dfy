/** Option and Result values standing in for the null returns and the exceptions of the .NET code. */
module Wrappers {

  datatype Option<+T> = None | Some(value: T)

  /** The .NET exceptions that the modelled code can raise. */
  datatype Exception =
    | ArgumentException
    | ArgumentOutOfRangeException
    | FormatException
    | OverflowException
    | NullReferenceException

  datatype Result<+T> = Success(value: T) | Failure(error: Exception)

  /** How a state-changing operation without a return value ended. */
  datatype Outcome = Completed | Thrown(error: Exception)
}

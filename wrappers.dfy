/** Option and Result, used for the source's null returns and thrown store errors. */
module Wrappers {

  /** A value or nothing; stands for a C# reference that may be null. */
  datatype Option<+T> = None | Some(value: T)

  /** A value, or the error a call raised instead of returning. */
  datatype Result<+T, +E> = Success(value: T) | Failure(error: E)
}

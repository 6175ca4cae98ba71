/** Option and Result: the nullable references and thrown argument exceptions of the source. */
module Wrappers {

  /** A possibly-null reference (`T?` in the source). */
  datatype Option<+T> = None | Some(value: T)

  /** The value an operation returns, or the exception it throws. */
  datatype Result<+R, +E> = Success(value: R) | Failure(error: E)

  /** The argument exceptions the constructors throw. */
  datatype ArgumentError =
    | ArgumentException(message: string)
    | ArgumentNullException(paramName: string)
}

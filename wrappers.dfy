/** Option and Result: the absent value (a C# null) and the construction that may fail. */
module Wrappers {

  /** `None` stands for a C# `null` reference or an empty `int?`. */
  datatype Option<+T> = None | Some(value: T)

  /** The outcome of an operation that either yields a value or fails with an error. */
  datatype Result<+R, +E> = Success(value: R) | Failure(error: E)
}

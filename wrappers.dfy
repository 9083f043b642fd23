/** Option and Result, for the null references and the failing constructor of the source. */
module Wrappers {

  /** A value that may be absent; `None` stands for a C# `null`. */
  datatype Option<+T> = None | Some(value: T)

  /** The outcome of an operation that throws in the source. */
  datatype Result<+R, +E> = Success(value: R) | Failure(error: E)
}

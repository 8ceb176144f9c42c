/** Failure-carrying results shared by the modules of this model. */
module Wrappers {

  /** A value or nothing; `None` also stands for a .NET null reference. */
  datatype Option<+T> = None | Some(value: T)

  /** A value, or the error that a .NET method would have thrown instead. */
  datatype Result<+R, +E> = Success(value: R) | Failure(error: E)

  /** Completion of an operation that returns nothing, or the error it threw. */
  datatype Outcome<+E> = Pass | Fail(error: E)
}

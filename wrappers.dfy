/** Failure-compatible result types shared by the other modules. */
module Wrappers {

  datatype Option<+T> = None | Some(value: T)

  datatype Result<+R, +E> = Success(value: R) | Failure(error: E)

  /** The result of a step that produces nothing but may fail. */
  datatype Outcome<+E> = Pass | Fail(error: E)
}

/** Failure-compatible result types shared by the pipeline modules. */
module Wrappers {

  /** A value that may be absent, such as a mapping lookup for an unknown code. */
  datatype Option<+T> = None | Some(value: T)

  /** The outcome of a step that can abort the whole batch. */
  datatype Result<+T, +E> = Success(value: T) | Failure(error: E)
}

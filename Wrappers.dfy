/** Option and Result, the two failure-carrying shapes the model uses for
    Kotlin's nullable values and thrown exceptions. */
module Wrappers {

  /** A nullable value: None stands for Kotlin's null. */
  datatype Option<+T> = None | Some(value: T)

  /** The outcome of a step that may throw: Failure carries what was thrown. */
  datatype Result<+T, +E> = Success(value: T) | Failure(error: E)
}

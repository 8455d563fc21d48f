/** Option and Result, the two failure-carrying datatypes the rest of the model uses. */
module Wrappers {

  /** `None` stands for JavaScript's `undefined` (an absent field, a missing header). */
  datatype Option<+T> = None | Some(value: T)

  /** The outcome of a step that either produces a value or throws. */
  datatype Result<+R, +E> = Success(value: R) | Failure(error: E)
}

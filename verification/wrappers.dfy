/** `Option` and `Result`, shared by the other modules. */
module Wrappers {

  /** Swift's `Optional`: a present value or nil. */
  datatype Option<+T> = None | Some(value: T)

  /** Swift's `Result<Success, Failure>` as handed to a completion handler. */
  datatype Result<+R, +E> = Success(value: R) | Failure(error: E)
}

/** Failure-compatible datatypes shared by the models. */
module Wrappers {

  /** A value that may be missing: JavaScript's `undefined`. */
  datatype Option<+T> = None | Some(value: T)

  /** The outcome of a call that either returns or throws. */
  datatype Result<+T> = Success(value: T) | Failure(error: Error)

  /** The exceptions the modelled code can raise. */
  datatype Error = TypeError | NotFound
}

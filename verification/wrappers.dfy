/** Failure-carrying result types shared by the rest of the model. */
module Wrappers {

  /** A value that may be absent; `None` stands for a lookup that found nothing. */
  datatype Option<+T> = None | Some(value: T)

  /** Either a computed value or the error that stopped the computation. */
  datatype Result<+T, +E> = Success(value: T) | Failure(error: E)
}

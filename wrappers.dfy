/** Optional values and validation results shared by every module. */
module Wrappers {

  /** A nullable field or an absent request parameter. */
  datatype Option<+T> = None | Some(value: T)

  /** The outcome of a validator: the (possibly normalised) accepted value, or why it was refused. */
  datatype Result<+T, +E> = Success(value: T) | Failure(error: E)
}

/** Option and Result, the two wrapper datatypes the model uses. */
module Wrappers {

  /** A value that may be absent: a missing dictionary key or a JSON null. */
  datatype Option<+T> = None | Some(value: T)

  /** Either a value or an error description. */
  datatype Result<+R, +E> = Success(value: R) | Failure(error: E)
}

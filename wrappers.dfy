/** Optional values and error returns shared by every module of the model. */
module Wrappers {

  /** A value that may be absent (`null` / `undefined` in the application). */
  datatype Option<+T> = None | Some(value: T)

  /** The outcome of an operation that may fail (a thrown `Error` in the application). */
  datatype Result<+T, +E> = Ok(value: T) | Err(error: E)
}

/** Optional values and results, shared by every module of the model. */
module Wrappers {

  /** A value that may be absent: Python's `None`, JavaScript's `null`/`undefined`. */
  datatype Option<+T> = None | Some(value: T)

  /** The outcome of an operation that may throw: `Failure` carries what was thrown. */
  datatype Result<+T, +E> = Success(value: T) | Failure(error: E)

  /** A field of a JSON request body: left out of the object, sent as `null`, or sent with a value. */
  datatype Field<+T> = Absent | Null | Val(value: T)
}

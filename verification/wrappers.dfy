/** Optional values and the outcome of a guarded write. */
module Wrappers {

  /** A value that may be absent: an optional field of a record, or the result of a lookup. */
  datatype Option<+T> = None | Some(value: T)

  /** Either the new value of a write, or the reason the write was refused.
      A refused write leaves the stored collection as it was. */
  datatype Result<+T, +E> = Success(value: T) | Failure(error: E)
}

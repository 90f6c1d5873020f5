/** Result types shared by every component of the model. */
module Wrappers {

  /** Python's `T | None`. */
  datatype Option<+T> = None | Some(value: T)

  /** Result of a storage read: a value, or the storage layer's error. */
  datatype Fetched<+T> = Ok(value: T) | StorageError

  /**
   * What really happened to a storage write. The caller sees an error in both
   * failing cases; in the last one the row was written before the error.
   */
  datatype Write = Done | FailedBefore | FailedAfter

  /** Timestamps and durations, in seconds. */
  type Time = real

  /** Python's `dict.get`. */
  function Lookup<V>(m: map<string, V>, key: string): Option<V> {
    if key in m then Some(m[key]) else None
  }
}

/** Small shared vocabulary: identifiers, instants and failure-carrying values. */
module Common {
  type Uuid = nat

  /** Instants and durations, in nanoseconds. */
  type Time = int

  const MICROSECOND: Time := 1_000
  const SECOND: Time := 1_000_000_000

  datatype Option<+T> = None | Some(value: T)

  datatype Result<+T> = Success(value: T) | Failure
}

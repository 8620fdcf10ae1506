/** Stand-ins for Go's comma-ok and error results, and the clock. */
module Wrappers {
  datatype Option<+T> = None | Some(value: T)

  datatype Result<+T, +E> = Ok(value: T) | Err(error: E)

  newtype byte = x: int | 0 <= x < 0x100

  /** A Go string or byte slice. */
  type Bytes = seq<byte>

  /** Nanoseconds since Go's zero time: `0` is the instant whose IsZero() holds. */
  type Time = int

  /** A reading of the clock: never before Go's zero time. */
  type Clock = t: Time | 0 <= t

  /** A Go time.Duration, in nanoseconds. */
  type Duration = int

  const SECOND: Duration := 1_000_000_000
  const MINUTE: Duration := 60 * SECOND
  const HOUR: Duration := 60 * MINUTE

  function Min(a: int, b: int): int {
    if a <= b then a else b
  }

  function Max(a: int, b: int): int {
    if a >= b then a else b
  }
}

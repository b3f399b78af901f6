/** Instants and durations as Go's time package keeps them: whole nanoseconds, with the zero time
    as instant 0. Clock readings are parameters everywhere in this project. */
module Clock {
  type Time = nat

  const SECOND := 1_000_000_000

  /** The largest time.Duration; a longer difference of two instants saturates to it. */
  const MAX_DURATION := 0x7FFF_FFFF_FFFF_FFFF

  type Duration = d: int | -MAX_DURATION - 1 <= d <= MAX_DURATION

  /** t.Sub(u). */
  function Sub(t: Time, u: Time): Duration {
    if t - u > MAX_DURATION then MAX_DURATION
    else if t - u < -MAX_DURATION - 1 then -MAX_DURATION - 1
    else t - u
  }

  const TWO_63 := 0x8000_0000_0000_0000
  const TWO_64 := 0x1_0000_0000_0000_0000

  /** What Go keeps of a product of durations. */
  function Wrapped(x: int): Duration {
    (x + TWO_63) % TWO_64 - TWO_63
  }

  /** The second an RFC 3339 text of t keeps; the fraction is dropped. */
  function Truncated(t: Time): nat {
    t / SECOND
  }

  function Max(x: int, y: int): int {
    if x < y then y else x
  }

  function Min(x: int, y: int): int {
    if x < y then x else y
  }

  datatype Option<+T> = None | Some(value: T)
}

// Shared result types and time units.

module Common {
  datatype Option<+T> = None | Some(value: T)

  // An operation either finishes with a new state or refuses and leaves the old one.
  datatype Outcome<+S, +E> = Done(state: S) | Refused(error: E)
}

// One integer timeline: instants are microseconds in UTC, the resolution of a
// Python datetime.
module Timeline {
  type Time = int

  // Time of day, microseconds after midnight.
  type TimeOfDay = t: int | 0 <= t < DAY witness 0

  const MINUTE: int := 60_000_000
  const DAY: int := 1440 * MINUTE

  // int(delta.total_seconds() / 60): truncation toward zero.
  function Minutes(delta: int): (m: int)
    ensures delta >= 0 ==> m >= 0 && MINUTE * m <= delta < MINUTE * (m + 1)
  {
    if delta >= 0 then delta / MINUTE else -((-delta) / MINUTE)
  }

  // hour * 60 + minute of a time of day; seconds are dropped.
  function MinuteOfDay(t: TimeOfDay): (m: int)
    ensures 0 <= m < 1440
    ensures MINUTE * m <= t < MINUTE * (m + 1)
  {
    t / MINUTE
  }

  function Max(a: int, b: int): int {
    if a < b then b else a
  }
}

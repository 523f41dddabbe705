/** Times and durations are whole numbers of nanoseconds. */
module Clock {
  const SECOND := 1_000_000_000
}

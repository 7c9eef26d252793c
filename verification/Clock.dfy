/** Instants are whole nanoseconds since the Unix epoch. */
module Clock {
  type Time = int

  const SECOND := 1_000_000_000

  /** time.Time.Unix: whole seconds, rounded down also before the epoch. */
  function Unix(t: Time): int {
    t / SECOND
  }

  lemma UnixFloors(t: Time)
    ensures Unix(t) * SECOND <= t < (Unix(t) + 1) * SECOND
  {
  }
}

/** Go's time.Duration constants, in nanoseconds; instants are integer nanosecond counts. */
module GoTime {

  const Second: int := 1_000_000_000
  const Minute: int := 60 * Second
}

/** Clock readings, in nanoseconds since 1970. */
module Clocks {

  const SECOND: int := 1_000_000_000
  const MINUTE: int := 60 * SECOND
  const HOUR: int := 60 * MINUTE

  /** Go's zero time, in year 1. */
  const ZERO_TIME: int := -62_135_596_800 * SECOND
}

/** Tunables of the directory (workers/phonebook/src/lib/config.js), and its clock arithmetic. */
module Config {
  const REGISTRATION_TTL := 300
  const ENTRY_TTL := 900
  const TOMBSTONE_TTL := 3600
  const SKEW_MS := 120_000
  const BATCH := 200

  /** Rows hold whole seconds of a millisecond clock. */
  function Seconds(ms: int): int { ms / 1000 }

  function Abs(x: int): int { if x < 0 then -x else x }
}

/** The constants every SDK is generated from, and the backoff schedule they define. */
module Contract {
  import opened Common

  const RETRYABLE_STATUSES := [408, 425, 429, 500, 502, 503, 504]
  const FATAL_STATUSES := [401, 403]

  const BACKOFF_BASE_MS := 500
  const BACKOFF_MAX_MS := 60_000

  function Pow2(n: nat): (p: nat)
    ensures p >= 1
  {
    if n == 0 then 1 else 2 * Pow2(n - 1)
  }

  /** The backoff ceiling of the `attempt`-th consecutive failure, in milliseconds. */
  function Ceiling(attempt: nat): nat
    requires attempt >= 1
  {
    Min(BACKOFF_MAX_MS, BACKOFF_BASE_MS * Pow2(attempt - 1))
  }

  /** Half a second, doubled with each failure after the first. */
  ghost function Doubled(failures: nat): nat
    requires failures >= 1
  {
    if failures == 1 then 500 else 2 * Doubled(failures - 1)
  }

  /** The longest the client waits after so many failures in a row: never more than a minute. */
  ghost function LongestWait(failures: nat): nat
    requires failures >= 1
  {
    if Doubled(failures) <= 60_000 then Doubled(failures) else 60_000
  }

  lemma {:induction false} DoubledIsPow2(failures: nat)
    requires failures >= 1
    ensures Doubled(failures) == 500 * Pow2(failures - 1)
  {
    if failures > 1 { DoubledIsPow2(failures - 1); }
  }

  lemma CeilingIsTheLongestWait(failures: nat)
    requires failures >= 1
    ensures Ceiling(failures) == LongestWait(failures)
  {
    DoubledIsPow2(failures);
  }
}

module Clock {

  /** Seconds between two clock readings in nanoseconds, as duration_cast counts them: truncated towards zero. */
  function Elapsed(now: int, since: int): int {
    if now >= since then (now - since) / 1000000000 else -((since - now) / 1000000000)
  }

  /** An age counts as at most s seconds while less than s + 1 have passed. */
  lemma ElapsedIs(now: int, since: int, s: int)
    ensures s >= 0 ==> (Elapsed(now, since) <= s <==> now - since < (s + 1) * 1000000000)
  {}
}

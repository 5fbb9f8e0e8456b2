/** Whole days from the current instant to a renewal instant, rounded up,
    as both the notifications page and the subscription card compute it. */
module Renewal {
  import opened Types

  /** `Math.ceil((renewal - now) / DAY)`: the least whole number of days that
      reaches the renewal instant. Zero covers the day before `now` up to and
      including `now`; negative counts are whole days overdue. */
  function DaysUntil(renewal: Instant, now: Instant): (r: int)
    ensures (r - 1) * DAY < renewal - now <= r * DAY
    ensures r < 0 <==> renewal - now <= -DAY
    ensures r == 0 <==> -DAY < renewal - now <= 0
    ensures r <= 0 <==> renewal <= now
  {
    var q := (now - renewal) / DAY;
    assert q * DAY <= now - renewal < q * DAY + DAY;
    -q
  }

  /** The day count is the only whole number with that bracketing. */
  lemma DaysUntilUnique(renewal: Instant, now: Instant, d: int)
    requires (d - 1) * DAY < renewal - now <= d * DAY
    ensures d == DaysUntil(renewal, now)
  {
  }

  /** A later renewal is never fewer days away. */
  lemma DaysUntilMonotone(r1: Instant, r2: Instant, now: Instant)
    requires r1 <= r2
    ensures DaysUntil(r1, now) <= DaysUntil(r2, now)
  {
  }

  /** A renewal between `now` and `n` days later is 0 to `n` days away. */
  lemma DaysInWindow(renewal: Instant, now: Instant, n: int)
    requires now <= renewal <= now + n * DAY
    ensures 0 <= DaysUntil(renewal, now) <= n
  {
  }

  /** Exactly `k` whole days ahead reads as `k`. */
  lemma WholeDaysAhead(now: Instant, k: int)
    ensures DaysUntil(now + k * DAY, now) == k
  {
    DaysUntilUnique(now + k * DAY, now, k);
  }
}

/** Instants are microseconds since the Unix epoch, UTC; a UTC day is a block of DAY of them. */
module Calendar {

  type Instant = int

  const DAY: int := 86_400_000_000

  /** Twenty-four hours of sixty minutes of sixty seconds of a million microseconds. */
  lemma DayIs()
    ensures DAY == 24 * 60 * 60 * 1_000_000
  {}

  function DayOf(t: Instant): int { t / DAY }

  /** The midnight that begins the day of t. */
  function DayStart(t: Instant): Instant { t - t % DAY }

  /** The form the quota gate uses: truncate, then add a day. */
  function TomorrowStart(t: Instant): Instant { DayStart(t) + DAY }

  /** The form registration uses: add a day, then truncate. */
  function UtcTomorrowStart(t: Instant): Instant { DayStart(t + DAY) }

  predicate Midnight(t: Instant) { t % DAY == 0 }

  lemma TomorrowFormsAgree(t: Instant)
    ensures TomorrowStart(t) == UtcTomorrowStart(t)
    ensures Midnight(TomorrowStart(t))
    ensures t < TomorrowStart(t) <= t + DAY
    ensures DayOf(TomorrowStart(t)) == DayOf(t) + 1
  {
    assert t == DAY * DayOf(t) + t % DAY;
    assert DayStart(t) == DAY * DayOf(t);
  }

  lemma MidnightBetween(m: Instant, t: Instant)
    requires Midnight(m)
    ensures m <= t <==> DayOf(m) <= DayOf(t)
  {
    assert m == DAY * DayOf(m);
    assert t == DAY * DayOf(t) + t % DAY;
  }

  lemma DayStartOrder(t: Instant, u: Instant)
    ensures DayStart(t) <= u <==> DayOf(t) <= DayOf(u)
  {
    assert DayStart(t) == DAY * DayOf(t);
    assert u == DAY * DayOf(u) + u % DAY;
  }

  lemma DaysOrdered(t: Instant, u: Instant)
    requires t <= u
    ensures DayOf(t) <= DayOf(u)
  {}
}

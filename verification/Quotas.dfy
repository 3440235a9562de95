/** One quota record of a user or an API key: the sequential meaning of the daily gate and of its report. */
module Quotas {
  import opened Prelude
  import opened Calendar

  /** Fields may be absent, as in a record written before they existed. */
  datatype Quota = Quota(limit: Option<int>, used: Option<int>, resetAt: Option<Instant>)

  /** None stands for a record that does not exist: reads see no fields and writes match nothing. */
  type Record = Option<Quota>

  function LimitOf(r: Record, default: int): int {
    if r.Some? && r.value.limit.Some? then r.value.limit.value else default
  }

  function UsedOf(r: Record): int {
    if r.Some? && r.value.used.Some? then r.value.used.value else 0
  }

  predicate Expired(r: Record, now: Instant) {
    r.None? || r.value.resetAt.None? || r.value.resetAt.value <= now
  }

  function WriteReset(r: Record, now: Instant): Record {
    if r.None? then None
    else Some(r.value.(used := Some(0), resetAt := Some(TomorrowStart(now))))
  }

  function WriteCharge(r: Record): Record {
    if r.None? then None else Some(r.value.(used := Some(UsedOf(r) + 1)))
  }

  datatype Verdict = Verdict(record: Record, granted: bool)

  /** What one undisturbed call of the gate does to a record. */
  function Consume(r: Record, default: int, now: Instant): Verdict {
    var used := if Expired(r, now) then 0 else UsedOf(r);
    var current := if Expired(r, now) then WriteReset(r, now) else r;
    if used >= LimitOf(r, default) then Verdict(current, false) else Verdict(WriteCharge(current), true)
  }

  datatype Report = Report(limit: int, used: int, remaining: int, resetAt: Instant)

  /** What the read-only quota report says about a record. */
  function Describe(r: Record, default: int, now: Instant): Report {
    var limit := LimitOf(r, default);
    var used := if Expired(r, now) then 0 else UsedOf(r);
    var resetAt := if Expired(r, now) then TomorrowStart(now) else r.value.resetAt.value;
    Report(limit, used, Max(0, limit - used), resetAt)
  }

  /** The report announces the gate: it promises a grant exactly when the gate gives one, and moves by exactly one. */
  lemma ReportAnnouncesGate(r: Record, default: int, now: Instant)
    ensures Consume(r, default, now).granted <==> Describe(r, default, now).remaining > 0
    ensures var after := Describe(Consume(r, default, now).record, default, now);
            var before := Describe(r, default, now);
            if Consume(r, default, now).granted && r.Some?
            then after == before.(used := before.used + 1, remaining := before.remaining - 1)
            else after == before
  {
    TomorrowFormsAgree(now);
  }

  // ----- Runs of non-overlapping calls -----

  /** Records the program itself writes: resets fall on midnight and the count is not negative. */
  predicate Regular(q: Quota) {
    && (q.resetAt.Some? ==> Midnight(q.resetAt.value))
    && (q.used.Some? ==> q.used.value >= 0)
  }

  predicate NonDecreasing(times: seq<Instant>) {
    forall i, j :: 0 <= i < j < |times| ==> times[i] <= times[j]
  }

  function After(q: Quota, default: int, now: Instant): Quota {
    Consume(Some(q), default, now).record.value
  }

  function Replay(q: Quota, default: int, times: seq<Instant>): Quota
    decreases |times|
  {
    if times == [] then q else Replay(After(q, default, times[0]), default, times[1..])
  }

  function CallsOn(times: seq<Instant>, day: int): nat {
    if times == [] then 0 else (if DayOf(times[0]) == day then 1 else 0) + CallsOn(times[1..], day)
  }

  function GrantsOn(q: Quota, default: int, times: seq<Instant>, day: int): nat
    decreases |times|
  {
    if times == [] then 0
    else (if DayOf(times[0]) == day && Consume(Some(q), default, times[0]).granted then 1 else 0)
         + GrantsOn(After(q, default, times[0]), default, times[1..], day)
  }

  function ResetsOn(q: Quota, default: int, times: seq<Instant>, day: int): nat
    decreases |times|
  {
    if times == [] then 0
    else (if DayOf(times[0]) == day && Expired(Some(q), times[0]) then 1 else 0)
         + ResetsOn(After(q, default, times[0]), default, times[1..], day)
  }

  /** Grants since the last reset, given that `count` were made before the run. */
  function GrantsSinceReset(q: Quota, default: int, times: seq<Instant>, count: nat): nat
    decreases |times|
  {
    if times == [] then count
    else
      var base := if Expired(Some(q), times[0]) then 0 else count;
      var grant := if Consume(Some(q), default, times[0]).granted then 1 else 0;
      GrantsSinceReset(After(q, default, times[0]), default, times[1..], base + grant)
  }

  /** What the record allows on a day: everything when its reset is due by then, else what is left. */
  function Allowance(q: Quota, default: int, day: int): nat {
    var due := q.resetAt.None? || DayOf(q.resetAt.value) <= day;
    Max(0, LimitOf(Some(q), default) - (if due then 0 else UsedOf(Some(q))))
  }

  lemma AfterIsRegular(q: Quota, default: int, now: Instant)
    requires Regular(q)
    ensures Regular(After(q, default, now))
    ensures LimitOf(Some(After(q, default, now)), default) == LimitOf(Some(q), default)
    ensures After(q, default, now).resetAt.Some? && DayOf(After(q, default, now).resetAt.value) > DayOf(now)
    ensures Allowance(After(q, default, now), default, DayOf(now))
         == Allowance(q, default, DayOf(now)) - (if Consume(Some(q), default, now).granted then 1 else 0)
    ensures Expired(Some(q), now) <==> q.resetAt.None? || DayOf(q.resetAt.value) <= DayOf(now)
  {
    TomorrowFormsAgree(now);
    if q.resetAt.Some? {
      MidnightBetween(q.resetAt.value, now);
    }
  }

  lemma {:induction false} NothingBefore(q: Quota, default: int, times: seq<Instant>, day: int)
    requires NonDecreasing(times)
    requires times != [] ==> DayOf(times[0]) > day
    ensures CallsOn(times, day) == GrantsOn(q, default, times, day) == ResetsOn(q, default, times, day) == 0
    decreases |times|
  {
    if times != [] {
      if |times| > 1 {
        assert times[0] <= times[1];
        assert DayOf(times[0]) <= DayOf(times[1]);
      }
      NothingBefore(After(q, default, times[0]), default, times[1..], day);
    }
  }

  /** When every call of the run falls on one day, the gate grants the first calls up to the allowance and no other. */
  lemma {:induction false} OneDayExactly(q: Quota, default: int, times: seq<Instant>, day: int)
    requires Regular(q) && NonDecreasing(times)
    requires times != [] ==> DayOf(times[0]) == day
    ensures GrantsOn(q, default, times, day) == Min(CallsOn(times, day), Allowance(q, default, day))
    ensures ResetsOn(q, default, times, day)
         == if times != [] && Expired(Some(q), times[0]) then 1 else 0
    decreases |times|
  {
    if times != [] {
      var next := After(q, default, times[0]);
      AfterIsRegular(q, default, times[0]);
      if |times| > 1 && DayOf(times[1]) != day {
        assert times[0] <= times[1];
        assert DayOf(times[0]) <= DayOf(times[1]);
        NothingBefore(next, default, times[1..], day);
      } else {
        OneDayExactly(next, default, times[1..], day);
        if |times| > 1 { AfterIsRegular(next, default, times[1]); }
      }
    }
  }

  /** Over any run of non-overlapping calls: a day sees at most one reset and at most the daily limit of grants. */
  lemma {:induction false} DailyLimitHolds(q: Quota, default: int, times: seq<Instant>, day: int)
    requires Regular(q) && NonDecreasing(times)
    ensures ResetsOn(q, default, times, day) <= 1
    ensures GrantsOn(q, default, times, day) <= Max(0, LimitOf(Some(q), default))
    decreases |times|
  {
    if times != [] {
      if DayOf(times[0]) < day {
        AfterIsRegular(q, default, times[0]);
        DailyLimitHolds(After(q, default, times[0]), default, times[1..], day);
      } else if DayOf(times[0]) > day {
        NothingBefore(q, default, times, day);
      } else {
        OneDayExactly(q, default, times, day);
      }
    }
  }

  /** A record that starts with its count right keeps it right: the stored count is the grants since the last reset. */
  lemma {:induction false} CountIsGrantsSinceReset(q: Quota, default: int, times: seq<Instant>)
    requires Regular(q)
    ensures UsedOf(Some(Replay(q, default, times)))
         == GrantsSinceReset(q, default, times, UsedOf(Some(q)))
    decreases |times|
  {
    if times != [] {
      AfterIsRegular(q, default, times[0]);
      CountIsGrantsSinceReset(After(q, default, times[0]), default, times[1..]);
    }
  }
}

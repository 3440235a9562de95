/**
 Runs in which resets are late. All of them keep the meter of the day, so that their contracts say what was charged on
 one day and how many resets of that day were late.
 */
module LateWitness {
  import opened Prelude
  import opened Calendar
  import opened Quotas
  import opened Store
  import opened Protocol
  import opened DailyGrants
  import opened LateResets
  import opened Reach
  import opened Witness

  // ----- Runs that keep the meter -----

  ghost predicate LeadsTo(s: State, steps: seq<Step>, t: State, m: Meter) {
    Leads(C, s, steps, t) && MeterAfter(C, s, steps, PAYER, NOTHING) == m
  }

  /** Some run without a crash leads from s to t, and at its end the meter of the day stands at m. */
  ghost predicate Tracks(s: State, t: State, m: Meter) {
    exists steps {:trigger LeadsTo(s, steps, t, m)} :: LeadsTo(s, steps, t, m)
  }

  lemma TrackStay(s: State)
    ensures Tracks(s, s, NOTHING)
  {
    assert LeadsTo(s, [], s, NOTHING);
  }

  lemma {:induction false} MeterSplits(c: Config, s: State, first: seq<Step>, rest: seq<Step>, h: Holder, m: Meter)
    ensures MeterAfter(c, s, first + rest, h, m)
         == MeterAfter(c, Run(c, s, first), rest, h, MeterAfter(c, s, first, h, m))
    decreases |first|
  {
    if first == [] {
      assert [] + rest == rest;
    } else {
      assert (first + rest)[0] == first[0] && (first + rest)[1..] == first[1..] + rest;
      MeterSplits(c, Apply(c, s, first[0]), first[1..], rest, h, Measure(c, s, first[0], h, m));
    }
  }

  lemma TrackOn(start: State, s: State, steps: seq<Step>, t: State, m: Meter)
    requires Tracks(start, s, m) && Leads(C, s, steps, t)
    ensures Tracks(start, t, MeterAfter(C, s, steps, PAYER, m))
  {
    var first :| LeadsTo(start, first, s, m);
    RunSplits(C, start, first, steps);
    MeterSplits(C, start, first, steps, PAYER, NOTHING);
    assert LeadsTo(start, first + steps, t, MeterAfter(C, s, steps, PAYER, m));
  }

  lemma TrackGo(start: State, s: State, m: Meter, step: Step)
    requires Tracks(start, s, m) && !step.Crash?
    ensures Tracks(start, Apply(C, s, step), Measure(C, s, step, PAYER, m))
  {
    var t := Apply(C, s, step);
    assert Run(C, s, [step]) == Run(C, t, []);
    assert MeterAfter(C, s, [step], PAYER, m) == MeterAfter(C, t, [], PAYER, Measure(C, s, step, PAYER, m));
    TrackOn(start, s, [step], t, m);
  }

  lemma OnlyTicksMoveTheClock(c: Config, s: State, step: Step)
    requires !step.Tick?
    ensures Apply(c, s, step).clock == s.clock
  {}

  lemma {:induction false} SilenceKeepsMeter(c: Config, s: State, steps: seq<Step>, h: Holder, m: Meter)
    requires SilentRun(c, s, steps)
    ensures MeterAfter(c, s, steps, h, m) == m
    decreases |steps|
  {
    if steps != [] {
      OnlyTicksMoveTheClock(c, s, steps[0]);
      SilenceKeepsMeter(c, Apply(c, s, steps[0]), steps[1..], h, m);
    }
  }

  lemma TrackFollow(start: State, s: State, t: State, m: Meter)
    requires Tracks(start, s, m) && Silently(C, s, t)
    ensures Tracks(start, t, m)
  {
    var steps :| LeadsSilently(C, s, steps, t);
    SilentIsCrashFree(C, s, steps);
    SilenceKeepsMeter(C, s, steps, PAYER, m);
    TrackOn(start, s, steps, t, m);
  }

  // ----- One worker -----

  /** What a reset makes of the meter: late if anything has been charged today. */
  function Struck(m: Meter): Meter { if m.charged > 0 then Meter(m.charged, m.charged, m.late + 1) else m }

  function Charged(m: Meter, n: nat): Meter { m.(charged := m.charged + n) }

  lemma Resets1(start: State, s: State, m: Meter, w: nat, since: Instant, limit: int, used: int, resetAt: Instant)
      returns (t: State)
    requires Tracks(start, s, m) && w < |s.workers| && HasReset(s.workers[w], since, limit) && limit > 0
    requires s.db.holders == Paid(limit, used, resetAt)
    ensures Tracks(start, t, Struck(m))
    ensures t == s.(workers := s.workers[w := AtCharge(s.workers[w].e, SENDER, since)],
                    db := s.db.(holders := Paid(limit, 0, TomorrowStart(since))))
  {
    assert HolderOf(SENDER) == PAYER;
    TrackGo(start, s, m, Work(w));
    t := Resetting(s, w, s.workers[w].e, since, limit, used, resetAt);
  }

  /** Charge. */
  lemma Charges1(start: State, s: State, m: Meter, w: nat, e: Id, since: Instant, limit: int, used: int,
                 resetAt: Instant) returns (t: State)
    requires Tracks(start, s, m) && Still(s) && w < |s.workers| && s.workers[w] == AtCharge(e, SENDER, since)
    requires s.db.holders == Paid(limit, used, resetAt)
    ensures Tracks(start, t, Charged(m, 1)) && Still(t) && t.clock == s.clock
    ensures t.workers == s.workers[w := Analyzing(e, SENDER, since)] && t.db.holders == Paid(limit, used + 1, resetAt)
  {
    assert HolderOf(SENDER) == PAYER;
    TrackGo(start, s, m, Work(w));
    t := Charging(s, w, e, since, limit, used, resetAt);
  }

  lemma ChargesAndFinishes(start: State, s: State, m: Meter, w: nat, e: Id, since: Instant, limit: int, used: int,
                           resetAt: Instant) returns (t: State)
    requires Tracks(start, s, m) && Still(s) && w < |s.workers| && s.workers[w] == AtCharge(e, SENDER, since)
    requires s.db.holders == Paid(limit, used, resetAt)
    ensures Tracks(start, t, Charged(m, 1)) && Still(t) && t.clock == s.clock
    ensures t.workers == s.workers[w := Idle] && t.db.holders == Paid(limit, used + 1, resetAt)
  {
    var charged := Charges1(start, s, m, w, e, since, limit, used, resetAt);
    t := Finish(C, charged, w);
    TrackFollow(start, charged, t, Charged(m, 1));
  }

  /** An idle worker takes in mails until the count is at the limit. */
  lemma {:induction false} SpendsRest(start: State, s: State, m: Meter, w: nat, limit: int, used: int, resetAt: Instant,
                                      after: Meter) returns (t: State)
    requires Tracks(start, s, m) && Still(s) && s.clock < resetAt && w < |s.workers| && s.workers[w].Idle?
    requires s.db.holders == Paid(limit, used, resetAt) && 0 <= used <= limit && after == Charged(m, limit - used)
    ensures Tracks(start, t, after) && Still(t) && t.clock == s.clock
    ensures t.workers == s.workers && t.db.holders == Paid(limit, limit, resetAt)
    decreases limit - used
  {
    assert used == limit ==> after == m;
    t := s;
    if used < limit {
      assert after == Charged(Charged(m, 1), limit - (used + 1));
      var spent := SpendsOne(start, s, m, w, limit, used, resetAt);
      t := SpendsRest(start, spent, Charged(m, 1), w, limit, used + 1, resetAt, after);
    }
  }

  /** An idle worker takes in one mail. */
  lemma SpendsOne(start: State, s: State, m: Meter, w: nat, limit: int, used: int, resetAt: Instant) returns (t: State)
    requires Tracks(start, s, m) && Still(s) && s.clock < resetAt && w < |s.workers| && s.workers[w].Idle?
    requires s.db.holders == Paid(limit, used, resetAt) && used < limit
    ensures Tracks(start, t, Charged(m, 1)) && Still(t) && t.clock == s.clock
    ensures t.workers == s.workers && t.db.holders == Paid(limit, used + 1, resetAt)
  {
    var read := ArriveAndRead(s, w, limit, used, resetAt);
    TrackFollow(start, s, read, m);
    t := ChargesAndFinishes(start, read, m, w, s.db.nextId, s.clock, limit, used, resetAt);
    assert t.workers == s.workers;
  }

  // ----- Waves of resets -----

  predicate HasReset(pc: Pc, since: Instant, limit: int) { pc.AtReset? && pc == AtReset(pc.e, SENDER, since, limit) }

  /** Of the first `crew` workers those from `done` to `armed` hold a reset they decided on today, and the others are
      idle; the rest hold a reset they decided on the day before. */
  ghost predicate Wave(s: State, workers: nat, crew: nat, done: nat, armed: nat, day: Instant, limit: int) {
    && Still(s) && s.clock == day && Midnight(day) && done <= armed <= crew <= |s.workers| == workers
    && (forall w {:trigger s.workers[w]} :: 0 <= w < workers ==>
          if done <= w < armed then HasReset(s.workers[w], day, limit)
          else if crew <= w then HasReset(s.workers[w], day - DAY, limit)
          else s.workers[w].Idle?)
  }

  /** One more worker of the crew finds the record expired, and then all of them do. */
  lemma {:induction false} AllDecide(start: State, s: State, m: Meter, workers: nat, crew: nat, armed: nat,
                                     day: Instant, limit: int, used: int, resetAt: Instant) returns (t: State)
    requires Tracks(start, s, m) && Wave(s, workers, crew, 0, armed, day, limit)
    requires s.db.holders == Paid(limit, used, resetAt) && resetAt <= day
    ensures Tracks(start, t, m) && Wave(t, workers, crew, 0, crew, day, limit) && t.db.holders == s.db.holders
    decreases crew - armed
  {
    t := s;
    if armed < crew {
      t := ArriveAndRead(s, armed, limit, used, resetAt);
      TrackFollow(start, s, t, m);
      assert t.workers == s.workers[armed := AtReset(s.db.nextId, SENDER, day, limit)];
      t := AllDecide(start, t, m, workers, crew, armed + 1, day, limit, used, resetAt);
    }
  }

  /** The next of the wave writes its reset, and the limit is spent once more. */
  lemma Spends(start: State, s: State, m: Meter, workers: nat, crew: nat, done: nat, day: Instant, limit: int,
               used: int, resetAt: Instant) returns (t: State)
    requires Tracks(start, s, m) && Wave(s, workers, crew, done, crew, day, limit) && done < crew && limit >= 1
    requires s.db.holders == Paid(limit, used, resetAt)
    ensures Tracks(start, t, Charged(Struck(m), limit)) && Wave(t, workers, crew, done + 1, crew, day, limit)
    ensures t.db.holders == Paid(limit, limit, day + DAY)
  {
    assert TomorrowStart(day) == day + DAY;
    var e := s.workers[done].e;
    var struck := Struck(m);
    var reset := Resets1(start, s, m, done, day, limit, used, resetAt);
    var once := ChargesAndFinishes(start, reset, struck, done, e, day, limit, 0, day + DAY);
    t := SpendsRest(start, once, Charged(struck, 1), done, limit, 1, day + DAY, Charged(struck, limit));
    assert t.workers == s.workers[done := Idle];
  }

  /** The meter after n resets with the limit spent after each. */
  function Spent(m: Meter, n: nat, limit: nat): Meter {
    if n == 0 then m else Charged(Struck(Spent(m, n - 1, limit)), limit)
  }

  lemma {:induction false} AllSpend(start: State, s: State, m: Meter, workers: nat, crew: nat, done: nat, day: Instant,
                                    limit: int, used: int, resetAt: Instant) returns (t: State)
    requires Tracks(start, s, m) && Wave(s, workers, crew, 0, crew, day, limit) && done <= crew && limit >= 1
    requires s.db.holders == Paid(limit, used, resetAt)
    ensures Tracks(start, t, Spent(m, done, limit)) && Wave(t, workers, crew, done, crew, day, limit)
    ensures done > 0 ==> t.db.holders == Paid(limit, limit, day + DAY)
    ensures done == 0 ==> t.db.holders == s.db.holders
    decreases done
  {
    t := s;
    if done > 0 {
      t := AllSpend(start, s, m, workers, crew, done - 1, day, limit, used, resetAt);
      t := Spends(start, t, Spent(m, done - 1, limit), workers, crew, done - 1, day, limit,
                  if done == 1 then used else limit, if done == 1 then resetAt else day + DAY);
    }
  }

  lemma {:induction false} SpentIs(m: Meter, n: nat, limit: nat)
    requires limit >= 1
    ensures var r := Spent(m, n, limit);
            && r.charged == m.charged + Times(limit, n)
            && (m.charged > 0 ==> r.late == m.late + n)
            && (m == NOTHING && n > 0 ==> r.late == n - 1 && r.wiped == Times(limit, n - 1))
    ensures Times(limit, n) >= n
  {
    if n > 0 { SpentIs(m, n - 1, limit); }
  }

  /** The account's first day has just ended: its record is expired. */
  function Morning(workers: nat, limit: int): State { Idlers(workers, Paid(limit, 0, DAY), DAY) }

  lemma MorningStarts(workers: nat, limit: int)
    requires workers >= 1
    ensures Init(Morning(workers, limit)) && Wave(Morning(workers, limit), workers, workers, 0, 0, DAY, limit)
  {
    assert Midnight(DAY);
  }

  lemma AllFindExpired(workers: nat, limit: int) returns (t: State)
    requires workers >= 1
    ensures Init(Morning(workers, limit)) && Tracks(Morning(workers, limit), t, NOTHING)
    ensures Wave(t, workers, workers, 0, workers, DAY, limit) && t.db.holders == Paid(limit, 0, DAY)
  {
    var start := Morning(workers, limit);
    MorningStarts(workers, limit);
    TrackStay(start);
    t := AllDecide(start, start, NOTHING, workers, workers, 0, DAY, limit, 0, DAY);
  }

  /** With W workers, a day that starts with an expired record can see W resets, all but the first late, and W times the
      limit charged. The run begins and ends on that day. */
  lemma LateResetsMultiply(workers: nat, limit: int) returns (t: State)
    requires workers >= 1 && limit >= 1
    ensures Init(Morning(workers, limit)) && t.clock == DAY
    ensures Tracks(Morning(workers, limit), t, Meter(Times(limit, workers), Times(limit, workers - 1), workers - 1))
    ensures t.db.holders == Paid(limit, limit, 2 * DAY)
  {
    var start := Morning(workers, limit);
    t := AllFindExpired(workers, limit);
    t := AllSpend(start, t, NOTHING, workers, workers, workers, DAY, limit, 0, DAY);
    SpentIs(NOTHING, workers, limit);
  }

  // ----- Resets left over from the day before -----

  /** A worker left over from the day before writes its reset, which is expired already, and charges once. */
  lemma StirsUp(start: State, s: State, m: Meter, workers: nat, crew: nat, day: Instant, limit: int, used: int,
                resetAt: Instant) returns (t: State)
    requires Tracks(start, s, m) && Wave(s, workers, crew, 0, 0, day, limit) && crew < workers && limit >= 1
    requires s.db.holders == Paid(limit, used, resetAt)
    ensures Tracks(start, t, Charged(Struck(m), 1)) && Wave(t, workers, crew + 1, 0, 0, day, limit)
    ensures t.db.holders == Paid(limit, 1, day)
  {
    assert TomorrowStart(day - DAY) == day;
    var e := s.workers[crew].e;
    t := Resets1(start, s, m, crew, day - DAY, limit, used, resetAt);
    t := ChargesAndFinishes(start, t, Struck(m), crew, e, day - DAY, limit, 0, day);
    assert t.workers == s.workers[crew := Idle];
  }

  /** The meter after n workers have been stirred up, each followed by a wave of all who are then free. */
  function Stormed(n: nat, limit: nat): Meter {
    if n == 0 then NOTHING else Spent(Charged(Struck(Stormed(n - 1, limit)), 1), n, limit)
  }

  lemma {:induction false} Storm(start: State, s: State, workers: nat, n: nat, day: Instant, limit: int,
                                 resetAt: Instant) returns (t: State)
    requires Tracks(start, s, NOTHING) && Wave(s, workers, 0, 0, 0, day, limit) && n <= workers && limit >= 1
    requires s.db.holders == Paid(limit, 0, resetAt)
    ensures Tracks(start, t, Stormed(n, limit)) && Wave(t, workers, n, 0, 0, day, limit)
    ensures t.db.holders == if n == 0 then Paid(limit, 0, resetAt) else Paid(limit, limit, day + DAY)
    decreases n
  {
    t := s;
    if n > 0 {
      var p := Stormed(n - 1, limit);
      t := Storm(start, s, workers, n - 1, day, limit, resetAt);
      t := StirsUp(start, t, p, workers, n - 1, day, limit, if n == 1 then 0 else limit,
                   if n == 1 then resetAt else day + DAY);
      t := AllDecide(start, t, Charged(Struck(p), 1), workers, n, 0, day, limit, 1, day);
      t := AllSpend(start, t, Charged(Struck(p), 1), workers, n, n, day, limit, 1, day);
    }
  }

  function Triangle(n: nat): nat { if n == 0 then 0 else Triangle(n - 1) + n }

  lemma {:induction false} TriangleIs(n: nat)
    ensures 2 * Triangle(n) == n * (n + 1)
  {
    if n > 0 {
      TriangleIs(n - 1);
      assert (n - 1) * n + 2 * n == n * (n + 1);
    }
  }

  lemma {:induction false} TimesAdds(x: nat, m: nat, n: nat)
    ensures Times(x, m + n) == Times(x, m) + Times(x, n)
  {
    if n > 0 { TimesAdds(x, m, n - 1); }
  }

  lemma {:induction false} StormedIs(n: nat, limit: nat)
    requires limit >= 1
    ensures Stormed(n, limit).charged == n + Times(limit, Triangle(n))
    ensures n > 0 ==> Stormed(n, limit).late + 1 == Triangle(n) + n
  {
    if n > 0 {
      StormedIs(n - 1, limit);
      StormedStep(Stormed(n - 1, limit), n, limit);
    }
  }

  lemma StormedStep(p: Meter, n: nat, limit: nat)
    requires limit >= 1 && n > 0 && p.charged == n - 1 + Times(limit, Triangle(n - 1))
    requires if n == 1 then p.late == 0 else p.late + 1 == Triangle(n - 1) + n - 1
    ensures var r := Spent(Charged(Struck(p), 1), n, limit);
            r.charged == n + Times(limit, Triangle(n)) && r.late + 1 == Triangle(n) + n
  {
    SpentIs(Charged(Struck(p), 1), n, limit);
    TimesAdds(limit, Triangle(n - 1), n);
    assert n == 1 ==> Triangle(n - 1) == 0 && Times(limit, 0) == 0;
  }

  /** All workers decide on a reset today; they come back to it tomorrow. */
  lemma NextMorning(workers: nat, limit: int) returns (t: State)
    requires workers >= 1 && limit >= 1
    ensures Init(Morning(workers, limit)) && Tracks(Morning(workers, limit), t, NOTHING)
    ensures Wave(t, workers, 0, 0, 0, 2 * DAY, limit) && t.db.holders == Paid(limit, 0, DAY)
  {
    var start := Morning(workers, limit);
    var s := AllFindExpired(workers, limit);
    TrackGo(start, s, NOTHING, Tick(2 * DAY));
    t := Apply(C, s, Tick(2 * DAY));
    assert Midnight(2 * DAY) && DayOf(2 * DAY) != DayOf(DAY);
  }

  /** The most late resets a day can see is reached, for every limit and number of workers, with W + limit * W * (W + 1)
      / 2 charges: what late resets cost grows with the square of W. */
  lemma MostLateResetsAreReached(workers: nat, limit: int) returns (t: State, m: Meter)
    requires workers >= 1 && limit >= 1
    ensures Init(Morning(workers, limit)) && Tracks(Morning(workers, limit), t, m) && t.clock == 2 * DAY
    ensures m.late + 1 == Most(workers)
    ensures m.charged == workers + Times(limit, Triangle(workers)) && 2 * Triangle(workers) == workers * (workers + 1)
  {
    var s := NextMorning(workers, limit);
    t := Storm(Morning(workers, limit), s, workers, workers, 2 * DAY, limit, DAY);
    m := Stormed(workers, limit);
    StormedIs(workers, limit);
    TriangleIs(workers);
    MostIs(workers);
    assert workers * (workers + 1) + 2 * workers == workers * (workers + 3);
  }

  // ----- The smallest case -----

  /** Worker 1 still holds the reset it decided on before worker 0 reset, charged and finished. */
  lemma OneGoesAhead() returns (t: State)
    ensures Init(Morning(2, 1)) && Tracks(Morning(2, 1), t, Meter(1, 0, 0)) && Still(t) && t.clock == DAY
    ensures |t.workers| == 2 && t.workers[0].Idle? && HasReset(t.workers[1], DAY, 1)
    ensures t.db.holders == Paid(1, 1, 2 * DAY)
  {
    assert Charged(Struck(NOTHING), 1) == Meter(1, 0, 0);
    var s := AllFindExpired(2, 1);
    t := Spends(Morning(2, 1), s, NOTHING, 2, 2, 0, DAY, 1, 0, DAY);
  }

  /** The late reset is written, and before its worker charges, a third mail finds the count at nothing. */
  lemma ThirdComesIn() returns (t: State, a: Id, b: Id)
    ensures Init(Morning(2, 1)) && Tracks(Morning(2, 1), t, Meter(1, 1, 1)) && Still(t) && t.clock == DAY
    ensures t.workers == [AtCharge(a, SENDER, DAY), AtCharge(b, SENDER, DAY)] && t.db.holders == Paid(1, 0, 2 * DAY)
  {
    var start := Morning(2, 1);
    assert Struck(Meter(1, 0, 0)) == Meter(1, 1, 1);
    var ahead := OneGoesAhead();
    b := ahead.workers[1].e;
    assert TomorrowStart(DAY) == 2 * DAY;
    var late := Resets1(start, ahead, Meter(1, 0, 0), 1, DAY, 1, 1, 2 * DAY);
    a := late.db.nextId;
    t := ArriveAndRead(late, 0, 1, 0, 2 * DAY);
    TrackFollow(start, late, t, Meter(1, 1, 1));
  }

  /** With one analysis a day and two workers, three mails are charged for on one day, on which the run also begins,
      though the count never shows more than two: the second of two resets is late and wipes the first charge. */
  lemma LateResetLetsMorePass() returns (t: State)
    ensures Init(Morning(2, 1)) && Tracks(Morning(2, 1), t, Meter(3, 1, 1))
    ensures t.clock == DAY && t.db.holders == Paid(1, 2, 2 * DAY)
  {
    assert Charged(Meter(1, 1, 1), 1) == Meter(2, 1, 1) && Charged(Meter(2, 1, 1), 1) == Meter(3, 1, 1);
    var s, a, b := ThirdComesIn();
    var first := Charges1(Morning(2, 1), s, Meter(1, 1, 1), 0, a, DAY, 1, 0, 2 * DAY);
    t := Charges1(Morning(2, 1), first, Meter(2, 1, 1), 1, b, DAY, 1, 1, 2 * DAY);
  }
}

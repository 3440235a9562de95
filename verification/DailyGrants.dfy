/**
 What racing workers can spend in a day. The stored count bounds the charges of a day only as long as no reset is
 written after a charge of that day; each such late reset lets at most one more ceiling of charges through.
 */
module DailyGrants {
  import opened Prelude
  import opened Calendar
  import opened Quotas
  import opened Store
  import opened Protocol
  import opened Safety
  import opened QuotaBounds

  /** Of one holder, on the clock's day so far: its charges, those of them that a reset has wiped from the stored count,
      and how many late resets there were. */
  datatype Meter = Meter(charged: nat, wiped: nat, late: nat)

  const NOTHING: Meter := Meter(0, 0, 0)

  predicate Charges(s: State, step: Step, h: Holder) {
    && step.Work? && step.worker < |s.workers|
    && s.workers[step.worker].AtCharge? && HolderOf(s.workers[step.worker].o) == h
  }

  predicate Resets(s: State, step: Step, h: Holder) {
    && h in s.db.holders && step.Work? && step.worker < |s.workers|
    && s.workers[step.worker].AtReset? && HolderOf(s.workers[step.worker].o) == h
  }

  /** The reset of h is written although h has been charged today. */
  predicate Late(s: State, step: Step, h: Holder, m: Meter) { Resets(s, step, h) && m.charged > 0 }

  predicate NewDay(c: Config, s: State, step: Step) { DayOf(Apply(c, s, step).clock) != DayOf(s.clock) }

  function Measure(c: Config, s: State, step: Step, h: Holder, m: Meter): Meter {
    if NewDay(c, s, step) then NOTHING
    else if Charges(s, step, h) then m.(charged := m.charged + 1)
    else if Late(s, step, h, m) then Meter(m.charged, m.charged, m.late + 1)
    else m
  }

  function MeterAfter(c: Config, s: State, steps: seq<Step>, h: Holder, m: Meter): Meter
    decreases |steps|
  {
    if steps == [] then m else MeterAfter(c, Apply(c, s, steps[0]), steps[1..], h, Measure(c, s, steps[0], h, m))
  }

  // ----- The meter counts what the log records -----

  function ChargesTo(log: Log, h: Holder): set<Charge> { set ch | ch in log.charges && ch.holder == h }

  lemma OtherStepsLogNoCharge(c: Config, s: State, step: Step)
    requires !(step.Work? && step.worker < |s.workers| && s.workers[step.worker].AtCharge?)
    ensures Apply(c, s, step).log.charges == s.log.charges
  {}

  lemma OnlyChargesAreLogged(c: Config, s: State, step: Step, h: Holder)
    requires !Charges(s, step, h)
    ensures ChargesTo(Apply(c, s, step).log, h) == ChargesTo(s.log, h)
  {
    if step.Work? && step.worker < |s.workers| && s.workers[step.worker].AtCharge? {
      var pc := s.workers[step.worker];
      assert Apply(c, s, step).log.charges == s.log.charges + multiset{Charge(pc.e, HolderOf(pc.o))};
    } else {
      OtherStepsLogNoCharge(c, s, step);
    }
  }

  lemma ChargeIsNew(c: Config, s: State, step: Step, h: Holder)
    requires Inv(s) && Charges(s, step, h)
    ensures |ChargesTo(Apply(c, s, step).log, h)| == |ChargesTo(s.log, h)| + 1
  {
    var pc := s.workers[step.worker];
    assert WorkerOk(s.db, s.log, pc, step.worker);
    assert Charge(pc.e, h) !in s.log.charges;
    assert ChargesTo(Apply(c, s, step).log, h) == ChargesTo(s.log, h) + {Charge(pc.e, h)};
  }

  lemma {:induction false} DaysPass(c: Config, s: State, steps: seq<Step>)
    ensures s.clock <= Run(c, s, steps).clock
    decreases |steps|
  {
    if steps != [] {
      ClockMoves(c, s, steps[0]);
      DaysPass(c, Apply(c, s, steps[0]), steps[1..]);
    }
  }

  lemma ClockMoves(c: Config, s: State, step: Step)
    ensures s.clock <= Apply(c, s, step).clock
  {}

  /** Within a day the meter grows by exactly the charges to h that the log gains. */
  lemma {:induction false} MeterIsTheLog(c: Config, s: State, steps: seq<Step>, h: Holder, m: Meter)
    requires Inv(s) && DayOf(Run(c, s, steps).clock) == DayOf(s.clock)
    ensures MeterAfter(c, s, steps, h, m).charged - m.charged
         == |ChargesTo(Run(c, s, steps).log, h)| - |ChargesTo(s.log, h)|
    decreases |steps|
  {
    if steps != [] {
      var t := Apply(c, s, steps[0]);
      ClockMoves(c, s, steps[0]);
      DaysPass(c, t, steps[1..]);
      DaysOrdered(s.clock, t.clock);
      DaysOrdered(t.clock, Run(c, t, steps[1..]).clock);
      StepKeeps(c, s, steps[0]);
      if Charges(s, steps[0], h) {
        ChargeIsNew(c, s, steps[0], h);
      } else {
        OnlyChargesAreLogged(c, s, steps[0], h);
      }
      MeterIsTheLog(c, t, steps[1..], h, Measure(c, s, steps[0], h, m));
    }
  }

  // ----- What a step does to the record of h -----

  ghost predicate Named(db: Db, h: Holder) { exists e :: e in db.events && HolderOf(db.events[e].origin) == h }

  lemma WorkMovesRecord(c: Config, s: State, w: nat, h: Holder)
    requires w < |s.workers| && h in s.db.holders
    ensures var hs, hs' := s.db.holders, WorkOn(c, s, w).db.holders;
            && h in hs' && Limit(c, hs', h) == Limit(c, hs, h)
            && Used(hs', h) == if Charges(s, Work(w), h) then Used(hs, h) + 1
                               else if Resets(s, Work(w), h) then 0 else Used(hs, h)
  {
    if !WritesHolder(s.workers[w]) { OtherWorkLeavesHolders(c, s, w); }
  }

  /** Nothing but a charge or a reset of h changes its record. */
  lemma RecordMoves(c: Config, s: State, step: Step, h: Holder)
    requires Fresh(s.db) && h in s.db.holders
    ensures var hs, hs' := s.db.holders, Apply(c, s, step).db.holders;
            && h in hs' && Limit(c, hs', h) == Limit(c, hs, h)
            && Used(hs', h) == if Charges(s, step, h) then Used(hs, h) + 1
                               else if Resets(s, step, h) then 0 else Used(hs, h)
  {
    if step.Work? && step.worker < |s.workers| {
      WorkMovesRecord(c, s, step.worker, h);
    } else if !WorkerStep(step) && !step.Register? {
      OutsideStep(c, s, step);
    }
  }

  lemma WorkKeepsOrigin(c: Config, s: State, w: nat, e: Id)
    requires w < |s.workers| && e in s.db.events
    ensures e in WorkOn(c, s, w).db.events && WorkOn(c, s, w).db.events[e].origin == s.db.events[e].origin
  {
    if !WritesEvent(s.workers[w]) { OtherWorkLeavesEvents(c, s, w); }
  }

  /** Once some mail names h, some mail always does. */
  lemma NamesStay(c: Config, s: State, step: Step, h: Holder)
    requires Fresh(s.db) && Named(s.db, h)
    ensures Named(Apply(c, s, step).db, h)
  {
    var e :| e in s.db.events && HolderOf(s.db.events[e].origin) == h;
    if !WorkerStep(step) {
      OutsideStep(c, s, step);
      assert e in Apply(c, s, step).db.events;
    } else if step.Work? && step.worker < |s.workers| {
      WorkKeepsOrigin(c, s, step.worker, e);
    }
  }

  lemma WorkRegistersNobody(c: Config, s: State, w: nat)
    requires w < |s.workers|
    ensures WorkOn(c, s, w).db.holders.Keys == s.db.holders.Keys
  {
    if !WritesHolder(s.workers[w]) { OtherWorkLeavesHolders(c, s, w); }
  }

  /** A holder appears only by registration, before any mail names it, with nothing used. */
  lemma AppearsUnnamed(c: Config, s: State, step: Step, h: Holder)
    requires Fresh(s.db) && h !in s.db.holders && h in Apply(c, s, step).db.holders
    ensures !Named(s.db, h) && Used(Apply(c, s, step).db.holders, h) == 0 && !NewDay(c, s, step)
  {
    if step.Work? && step.worker < |s.workers| {
      WorkRegistersNobody(c, s, step.worker);
    } else if !WorkerStep(step) && !step.Register? {
      OutsideStep(c, s, step);
    }
  }

  // ----- The invariant -----

  /** n times the ceiling. */
  function Times(ceiling: nat, n: nat): nat { if n == 0 then 0 else Times(ceiling, n - 1) + ceiling }

  /** What is charged and not wiped is in the stored count; late resets account for what is wiped. */
  ghost predicate Metered(c: Config, s: State, h: Holder, m: Meter) {
    var hs := s.db.holders;
    && m.wiped <= m.charged && (m.late == 0 ==> m.wiped == 0)
    && (h in hs ==>
          && m.charged - m.wiped <= Used(hs, h)
          && m.wiped <= Times(Ceiling(Limit(c, hs, h), |s.workers|), m.late))
    && (h !in hs ==> m.late == 0 && (m.charged > 0 ==> Named(s.db, h)))
  }

  lemma PresentKeeps(c: Config, s: State, step: Step, h: Holder, m: Meter)
    requires Inv(s) && QuotaHolds(c, s) && Metered(c, s, h, m) && h in s.db.holders
    ensures Metered(c, Apply(c, s, step), h, Measure(c, s, step, h, m))
  {
    RecordMoves(c, s, step, h);
    WorkersConstant(c, s, [step]);
    assert Run(c, s, [step]) == Run(c, Apply(c, s, step), []);
    assert Bounded(c, s.db.holders, s.workers, h);
  }

  lemma AbsentKeeps(c: Config, s: State, step: Step, h: Holder, m: Meter)
    requires Inv(s) && Metered(c, s, h, m) && h !in s.db.holders
    ensures Metered(c, Apply(c, s, step), h, Measure(c, s, step, h, m))
  {
    if h in Apply(c, s, step).db.holders {
      AppearsUnnamed(c, s, step, h);
      if Charges(s, step, h) { ChargerNames(s, step, h); }
    } else if !NewDay(c, s, step) {
      if Charges(s, step, h) { ChargerNames(s, step, h); }
      if Named(s.db, h) { NamesStay(c, s, step, h); }
    }
  }

  lemma ChargerNames(s: State, step: Step, h: Holder)
    requires Inv(s) && Charges(s, step, h)
    ensures Named(s.db, h)
  {
    assert WorkerOk(s.db, s.log, s.workers[step.worker], step.worker);
  }

  lemma StepKeepsMeter(c: Config, s: State, step: Step, h: Holder, m: Meter)
    requires Inv(s) && QuotaHolds(c, s) && Metered(c, s, h, m)
    ensures Metered(c, Apply(c, s, step), h, Measure(c, s, step, h, m))
  {
    if h in s.db.holders {
      PresentKeeps(c, s, step, h, m);
    } else {
      AbsentKeeps(c, s, step, h, m);
    }
  }

  lemma {:induction false} RunKeepsMeter(c: Config, s: State, steps: seq<Step>, h: Holder, m: Meter)
    requires Inv(s) && QuotaHolds(c, s) && Metered(c, s, h, m)
    ensures Metered(c, Run(c, s, steps), h, MeterAfter(c, s, steps, h, m))
    decreases |steps|
  {
    if steps != [] {
      StepKeepsMeter(c, s, steps[0], h, m);
      StepKeeps(c, s, steps[0]);
      StepKeepsQuota(c, s, steps[0]);
      RunKeepsMeter(c, Apply(c, s, steps[0]), steps[1..], h, Measure(c, s, steps[0], h, m));
    }
  }

  // ----- What a day can spend -----

  /** The charges of the current day are at most the ceiling of the stored count plus what was wiped today, and at most
      as many ceilings as there were late resets, and one. */
  predicate Spends(ceiling: nat, m: Meter) {
    && m.charged <= ceiling + m.wiped
    && m.charged <= Times(ceiling, m.late + 1)
    && (m.late == 0 ==> m.charged <= ceiling)
  }

  lemma MeteredSpends(c: Config, s: State, h: Holder, m: Meter)
    requires Metered(c, s, h, m) && h in s.db.holders && QuotaHolds(c, s)
    ensures Spends(Ceiling(Limit(c, s.db.holders, h), |s.workers|), m)
  {
    assert Bounded(c, s.db.holders, s.workers, h);
  }

  /** In every run, for a holder present from the start or registered on the way. */
  lemma DayGrantsBounded(c: Config, s: State, steps: seq<Step>, h: Holder)
    requires Init(s) && h in Run(c, s, steps).db.holders
    ensures Spends(Ceiling(Limit(c, Run(c, s, steps).db.holders, h), |s.workers|), MeterAfter(c, s, steps, h, NOTHING))
  {
    InitHolds(s);
    InitBounded(c, s);
    RunKeepsMeter(c, s, steps, h, NOTHING);
    RunKeepsQuota(c, s, steps);
    WorkersConstant(c, s, steps);
    MeteredSpends(c, Run(c, s, steps), h, MeterAfter(c, s, steps, h, NOTHING));
  }

  // ----- When the stored count covers the day -----

  predicate Covers(s: State, h: Holder, m: Meter) { h in s.db.holders ==> m.charged <= Used(s.db.holders, h) }

  /** A step leaves the stored count short of the day's charges if and only if it is a late reset. */
  lemma StepUncoversExactly(c: Config, s: State, step: Step, h: Holder, m: Meter)
    requires Inv(s) && QuotaHolds(c, s) && Metered(c, s, h, m) && Covers(s, h, m)
    ensures !Covers(Apply(c, s, step), h, Measure(c, s, step, h, m)) <==> Late(s, step, h, m)
  {
    if h in s.db.holders {
      RecordMoves(c, s, step, h);
      assert Bounded(c, s.db.holders, s.workers, h);
    } else if h in Apply(c, s, step).db.holders {
      AppearsUnnamed(c, s, step, h);
      if Charges(s, step, h) { ChargerNames(s, step, h); }
    }
  }

  ghost predicate AlwaysCovers(c: Config, s: State, steps: seq<Step>, h: Holder, m: Meter)
    decreases |steps|
  {
    && Covers(s, h, m)
    && (steps == [] || AlwaysCovers(c, Apply(c, s, steps[0]), steps[1..], h, Measure(c, s, steps[0], h, m)))
  }

  ghost predicate NeverLate(c: Config, s: State, steps: seq<Step>, h: Holder, m: Meter)
    decreases |steps|
  {
    || steps == []
    || (&& !Late(s, steps[0], h, m)
        && NeverLate(c, Apply(c, s, steps[0]), steps[1..], h, Measure(c, s, steps[0], h, m)))
  }

  lemma {:induction false} RunCoversExactly(c: Config, s: State, steps: seq<Step>, h: Holder, m: Meter)
    requires Inv(s) && QuotaHolds(c, s) && Metered(c, s, h, m) && Covers(s, h, m)
    ensures AlwaysCovers(c, s, steps, h, m) <==> NeverLate(c, s, steps, h, m)
    decreases |steps|
  {
    if steps != [] {
      var t := Apply(c, s, steps[0]);
      var n := Measure(c, s, steps[0], h, m);
      StepUncoversExactly(c, s, steps[0], h, m);
      StepKeepsMeter(c, s, steps[0], h, m);
      StepKeeps(c, s, steps[0]);
      StepKeepsQuota(c, s, steps[0]);
      if Covers(t, h, n) {
        RunCoversExactly(c, t, steps[1..], h, n);
      } else {
        assert steps[1..] == [] || !AlwaysCovers(c, t, steps[1..], h, n);
      }
    }
  }

  /** From any start, the stored count covers the charges of the day all along if and only if no reset is late. */
  lemma CountCoversDayExactly(c: Config, s: State, steps: seq<Step>, h: Holder)
    requires Init(s)
    ensures AlwaysCovers(c, s, steps, h, NOTHING) <==> NeverLate(c, s, steps, h, NOTHING)
  {
    InitHolds(s);
    InitBounded(c, s);
    RunCoversExactly(c, s, steps, h, NOTHING);
  }

  lemma {:induction false} NeverLateCountsNone(c: Config, s: State, steps: seq<Step>, h: Holder, m: Meter)
    requires NeverLate(c, s, steps, h, m) && m.late == 0
    ensures MeterAfter(c, s, steps, h, m).late == 0
    decreases |steps|
  {
    if steps != [] {
      NeverLateCountsNone(c, Apply(c, s, steps[0]), steps[1..], h, Measure(c, s, steps[0], h, m));
    }
  }

  /** The limit on grants: with no late reset in the run, a day's charges never pass the limit by W or more. */
  lemma DayGrantsWithoutLateReset(c: Config, s: State, steps: seq<Step>, h: Holder)
    requires Init(s) && h in Run(c, s, steps).db.holders && NeverLate(c, s, steps, h, NOTHING)
    ensures MeterAfter(c, s, steps, h, NOTHING).charged
         <= Ceiling(Limit(c, Run(c, s, steps).db.holders, h), |s.workers|)
  {
    DayGrantsBounded(c, s, steps, h);
    NeverLateCountsNone(c, s, steps, h, NOTHING);
  }
}

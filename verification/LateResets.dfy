/**
 How many late resets a day can see. Only a worker that entered the gate on an earlier day, or one that found the record
 expired before anybody renewed it, can still write a reset; so a day has at most W * (W + 3) / 2 of them, of which the
 first is not late, and its charges stay bounded whatever the interleaving.
 */
module LateResets {
  import opened Prelude
  import opened Calendar
  import opened Quotas
  import opened Store
  import opened Protocol
  import opened Safety
  import opened QuotaBounds
  import opened DailyGrants

  /** Workers that entered the gate of h before the day and may still reset. */
  function Stale(ws: seq<Pc>, h: Holder, day: int): set<nat> {
    set w: nat | w < |ws| && IsStale(ws[w], h, day)
  }

  predicate IsStale(pc: Pc, h: Holder, day: int) {
    (pc.AtGate? || pc.AtReset?) && HolderOf(pc.o) == h && DayOf(pc.since) < day
  }

  /** Workers of the day that are about to reset. */
  function Eager(ws: seq<Pc>, h: Holder, day: int): set<nat> {
    set w: nat | w < |ws| && IsEager(ws[w], h, day)
  }

  predicate IsEager(pc: Pc, h: Holder, day: int) {
    pc.AtReset? && HolderOf(pc.o) == h && DayOf(pc.since) >= day
  }

  /** The record of h reads as expired for everyone who enters the gate on the day. */
  predicate Due(hs: Holders, h: Holder, day: int) {
    h in hs && (hs[h].resetAt.None? || DayOf(hs[h].resetAt.value) <= day)
  }

  /** What `stale` of the workers can bring about: each may write its reset, which makes the record due once more for
      everyone who is not stale by then. */
  function Stirred(workers: nat, stale: nat): nat
    requires stale <= workers
  {
    if stale == 0 then 0 else Stirred(workers, stale - 1) + 1 + (workers - (stale - 1))
  }

  /** The resets still to come: what the stale may stir, and those of the others, all of them when the record is due. */
  function Cost(workers: nat, stale: nat, eager: nat, due: bool): nat
    requires stale <= workers
  {
    Stirred(workers, stale) + (if due then workers - stale else eager)
  }

  /** The most resets a day can see. */
  function Most(workers: nat): nat { Stirred(workers, workers) }

  lemma {:induction false} StirredIs(workers: nat, stale: nat)
    requires stale <= workers
    ensures 2 * Stirred(workers, stale) == stale * (2 * workers + 3 - stale)
  {
    if stale > 0 {
      StirredIs(workers, stale - 1);
      assert (stale - 1) * (2 * workers + 4 - stale) + 2 * (workers + 2 - stale) == stale * (2 * workers + 3 - stale);
    }
  }

  /** The most resets a day can see, in closed form. */
  lemma MostIs(workers: nat)
    ensures 2 * Most(workers) == workers * (workers + 3)
  {
    StirredIs(workers, workers);
  }

  /** Fewer stale workers, lower cost, even if all who are not stale reset. */
  lemma {:induction false} CostGrows(workers: nat, stale: nat, stale': nat)
    requires stale <= stale' <= workers
    ensures Stirred(workers, stale) <= Stirred(workers, stale')
    ensures Stirred(workers, stale) + workers - stale + (stale' - stale) <= Stirred(workers, stale') + workers - stale'
    decreases stale'
  {
    if stale < stale' { CostGrows(workers, stale, stale' - 1); }
  }

  lemma WorkersDiffer(ws: seq<Pc>, h: Holder, day: int)
    ensures |Stale(ws, h, day)| + |Eager(ws, h, day)| <= |ws|
  {
    assert Stale(ws, h, day) !! Eager(ws, h, day);
    SubsetCardinality(Stale(ws, h, day) + Eager(ws, h, day), Indices(|ws|));
  }

  /** The resets of h that the day may still see. */
  function Budget(hs: Holders, ws: seq<Pc>, h: Holder, day: int): nat {
    WorkersDiffer(ws, h, day);
    Cost(|ws|, |Stale(ws, h, day)|, |Eager(ws, h, day)|, Due(hs, h, day))
  }

  lemma BudgetFits(hs: Holders, ws: seq<Pc>, h: Holder, day: int)
    ensures Budget(hs, ws, h, day) <= Most(|ws|)
  {
    WorkersDiffer(ws, h, day);
    CostGrows(|ws|, |Stale(ws, h, day)|, |ws|);
  }

  /** With a worker that is neither stale nor eager, at least one reset fewer can come. */
  lemma OneOut(hs: Holders, ws: seq<Pc>, w: nat, h: Holder, day: int)
    requires w < |ws| && !IsStale(ws[w], h, day) && !IsEager(ws[w], h, day)
    ensures Budget(hs, ws, h, day) < Most(|ws|)
  {
    var busy := Stale(ws, h, day) + Eager(ws, h, day);
    assert Stale(ws, h, day) !! Eager(ws, h, day);
    SubsetCardinality(busy + {w}, Indices(|ws|));
    CostGrows(|ws|, |Stale(ws, h, day)|, |ws|);
  }

  lemma StaleMoves(ws: seq<Pc>, w: nat, pc: Pc, h: Holder, day: int)
    requires w < |ws|
    ensures Stale(ws[w := pc], h, day)
         == if IsStale(pc, h, day) then Stale(ws, h, day) + {w} else Stale(ws, h, day) - {w}
    ensures Eager(ws[w := pc], h, day)
         == if IsEager(pc, h, day) then Eager(ws, h, day) + {w} else Eager(ws, h, day) - {w}
  {}

  /** A worker that moves without becoming stale or, unless the record is due, eager. */
  lemma MoveSpends(hs: Holders, ws: seq<Pc>, w: nat, pc: Pc, h: Holder, day: int)
    requires w < |ws|
    requires IsStale(pc, h, day) ==> IsStale(ws[w], h, day)
    requires IsEager(pc, h, day) ==> IsEager(ws[w], h, day) || Due(hs, h, day)
    ensures Budget(hs, ws[w := pc], h, day) <= Budget(hs, ws, h, day)
  {
    var ws' := ws[w := pc];
    StaleMoves(ws, w, pc, h, day);
    WorkersDiffer(ws, h, day);
    WorkersDiffer(ws', h, day);
    SubsetCardinality(Stale(ws', h, day), Stale(ws, h, day));
    if !Due(hs, h, day) { SubsetCardinality(Eager(ws', h, day), Eager(ws, h, day)); }
    CostGrows(|ws|, |Stale(ws', h, day)|, |Stale(ws, h, day)|);
  }

  /** A reset by a worker of the day: the record is renewed, and one eager worker fewer is left. */
  lemma EagerResetSpends(hs: Holders, hs': Holders, ws: seq<Pc>, w: nat, pc: Pc, h: Holder, day: int)
    requires w < |ws| && IsEager(ws[w], h, day) && !IsEager(pc, h, day) && !IsStale(pc, h, day)
    requires !Due(hs', h, day)
    ensures Budget(hs', ws[w := pc], h, day) < Budget(hs, ws, h, day)
  {
    StaleMoves(ws, w, pc, h, day);
    WorkersDiffer(ws, h, day);
    assert Stale(ws, h, day) - {w} == Stale(ws, h, day);
    assert w in Eager(ws, h, day);
  }

  /** A reset by a stale worker: the record may be due again, and one stale worker fewer is left. */
  lemma StaleResetSpends(hs: Holders, hs': Holders, ws: seq<Pc>, w: nat, pc: Pc, h: Holder, day: int)
    requires w < |ws| && IsStale(ws[w], h, day) && !IsEager(pc, h, day) && !IsStale(pc, h, day)
    ensures Budget(hs', ws[w := pc], h, day) < Budget(hs, ws, h, day)
  {
    var ws' := ws[w := pc];
    StaleMoves(ws, w, pc, h, day);
    WorkersDiffer(ws, h, day);
    WorkersDiffer(ws', h, day);
    assert w in Stale(ws, h, day);
    assert |Stale(ws', h, day)| == |Stale(ws, h, day)| - 1;
  }

  lemma DueStays(hs: Holders, hs': Holders, ws: seq<Pc>, h: Holder, day: int)
    requires h in hs && h in hs' && hs'[h].resetAt == hs[h].resetAt
    ensures Budget(hs', ws, h, day) == Budget(hs, ws, h, day)
  {}

  // ----- Steps -----

  function Left(s: State, h: Holder): nat { Budget(s.db.holders, s.workers, h, DayOf(s.clock)) }

  lemma ResetSpends(c: Config, s: State, w: nat, h: Holder)
    requires NobodyAhead(s.workers, s.clock) && w < |s.workers| && Resets(s, Work(w), h)
    ensures Left(WorkOn(c, s, w), h) < Left(s, h)
  {
    var t := WorkOn(c, s, w);
    var pc := s.workers[w];
    var day := DayOf(s.clock);
    assert NotFuture(pc, s.clock);
    DaysOrdered(pc.since, s.clock);
    TomorrowFormsAgree(pc.since);
    assert t.workers == s.workers[w := t.workers[w]];
    if IsStale(pc, h, day) {
      StaleResetSpends(s.db.holders, t.db.holders, s.workers, w, t.workers[w], h, day);
    } else {
      EagerResetSpends(s.db.holders, t.db.holders, s.workers, w, t.workers[w], h, day);
    }
  }

  /** Reading the quota makes nobody stale, and eager only where the record is due. */
  lemma ReadSpends(c: Config, s: State, w: nat, h: Holder)
    requires NobodyAhead(s.workers, s.clock) && w < |s.workers| && s.workers[w].AtGate? && h in s.db.holders
    ensures Left(WorkOn(c, s, w), h) <= Left(s, h)
  {
    var t := WorkOn(c, s, w);
    var pc := s.workers[w];
    assert NotFuture(pc, s.clock);
    DaysOrdered(pc.since, s.clock);
    if s.db.holders[h].resetAt.Some? && s.db.holders[h].resetAt.value <= pc.since {
      DaysOrdered(s.db.holders[h].resetAt.value, pc.since);
    }
    assert t.workers == s.workers[w := t.workers[w]];
    MoveSpends(s.db.holders, s.workers, w, t.workers[w], h, DayOf(s.clock));
  }

  lemma OtherWorkStaysOut(c: Config, s: State, w: nat, h: Holder, day: int)
    requires w < |s.workers| && !s.workers[w].AtGate? && !Resets(s, Work(w), h) && h in s.db.holders
    requires DayOf(s.clock) == day
    ensures var t := WorkOn(c, s, w);
            && t.workers == s.workers[w := t.workers[w]] && t.clock == s.clock
            && !IsStale(t.workers[w], h, day) && !IsEager(t.workers[w], h, day)
            && h in t.db.holders && t.db.holders[h].resetAt == s.db.holders[h].resetAt
  {
    if !WritesHolder(s.workers[w]) { OtherWorkLeavesHolders(c, s, w); }
  }

  lemma WorkSpends(c: Config, s: State, w: nat, h: Holder)
    requires NobodyAhead(s.workers, s.clock) && w < |s.workers| && h in s.db.holders
    ensures Left(WorkOn(c, s, w), h) <= Left(s, h) - (if Resets(s, Work(w), h) then 1 else 0)
  {
    if Resets(s, Work(w), h) {
      ResetSpends(c, s, w, h);
    } else if s.workers[w].AtGate? {
      ReadSpends(c, s, w, h);
    } else {
      var t := WorkOn(c, s, w);
      OtherWorkStaysOut(c, s, w, h, DayOf(s.clock));
      MoveSpends(s.db.holders, s.workers, w, t.workers[w], h, DayOf(s.clock));
      DueStays(s.db.holders, t.db.holders, t.workers, h, DayOf(s.clock));
    }
  }

  /** A worker that takes a mail, raises or dies. */
  lemma LeaveSpends(c: Config, s: State, step: Step, h: Holder)
    requires step.Take? || step.Raise? || step.Crash?
    ensures Left(Apply(c, s, step), h) <= Left(s, h)
  {
    var t := Apply(c, s, step);
    var w := step.worker;
    if t.workers != s.workers {
      assert t.workers == s.workers[w := t.workers[w]];
      MoveSpends(s.db.holders, s.workers, w, t.workers[w], h, DayOf(s.clock));
    }
  }

  lemma OutsideSpends(c: Config, s: State, step: Step, h: Holder)
    requires Inv(s) && h in s.db.holders && !WorkerStep(step) && !NewDay(c, s, step)
    ensures Left(Apply(c, s, step), h) == Left(s, h)
  {
    OutsideStep(c, s, step);
    DueStays(s.db.holders, Apply(c, s, step).db.holders, s.workers, h, DayOf(s.clock));
  }

  /** Within a day no step adds to what the day may still see, and each reset takes from it. */
  lemma StepSpends(c: Config, s: State, step: Step, h: Holder)
    requires Inv(s) && NobodyAhead(s.workers, s.clock) && h in s.db.holders && !NewDay(c, s, step)
    ensures Left(Apply(c, s, step), h) <= Left(s, h) - (if Resets(s, step, h) then 1 else 0)
  {
    if step.Work? {
      if step.worker < |s.workers| { WorkSpends(c, s, step.worker, h); }
    } else if WorkerStep(step) {
      LeaveSpends(c, s, step, h);
    } else {
      OutsideSpends(c, s, step, h);
    }
  }

  // ----- Runs -----

  /** Late resets so far and resets to come fit; the first reset before any charge is not late. */
  predicate InBudget(s: State, h: Holder, m: Meter) {
    h in s.db.holders ==>
      && (m.charged == 0 ==> m.late == 0)
      && m.late + (if m.charged > 0 then 1 else 0) + Left(s, h) <= Most(|s.workers|)
  }

  /** The first charge of the day is that of a worker that can reset no more. */
  lemma FirstChargeSpends(c: Config, s: State, w: nat, h: Holder)
    requires w < |s.workers| && Charges(s, Work(w), h)
    ensures Left(WorkOn(c, s, w), h) < Most(|s.workers|)
  {
    var t := WorkOn(c, s, w);
    OneOut(t.db.holders, t.workers, w, h, DayOf(t.clock));
  }

  lemma PresentKeepsBudget(c: Config, s: State, step: Step, h: Holder, m: Meter)
    requires Inv(s) && NobodyAhead(s.workers, s.clock) && InBudget(s, h, m) && h in s.db.holders && !NewDay(c, s, step)
    ensures InBudget(Apply(c, s, step), h, Measure(c, s, step, h, m))
  {
    WorkersStay(c, s, step);
    RecordMoves(c, s, step, h);
    StepSpends(c, s, step, h);
    if Charges(s, step, h) { FirstChargeSpends(c, s, step.worker, h); }
  }

  lemma StepKeepsBudget(c: Config, s: State, step: Step, h: Holder, m: Meter)
    requires Inv(s) && NobodyAhead(s.workers, s.clock) && Metered(c, s, h, m) && InBudget(s, h, m)
    ensures InBudget(Apply(c, s, step), h, Measure(c, s, step, h, m))
  {
    var t := Apply(c, s, step);
    WorkersStay(c, s, step);
    if h in s.db.holders && !NewDay(c, s, step) {
      PresentKeepsBudget(c, s, step, h, m);
    } else if h in t.db.holders {
      BudgetFits(t.db.holders, t.workers, h, DayOf(t.clock));
      if h !in s.db.holders {
        AppearsUnnamed(c, s, step, h);
        if Charges(s, step, h) { ChargerNames(s, step, h); }
      }
    }
  }

  lemma WorkersStay(c: Config, s: State, step: Step)
    ensures |Apply(c, s, step).workers| == |s.workers|
  {
    WorkersConstant(c, s, [step]);
    assert Run(c, s, [step]) == Run(c, Apply(c, s, step), []);
  }

  lemma {:induction false} RunKeepsBudget(c: Config, s: State, steps: seq<Step>, h: Holder, m: Meter)
    requires Inv(s) && QuotaHolds(c, s) && NobodyAhead(s.workers, s.clock)
    requires Metered(c, s, h, m) && InBudget(s, h, m)
    ensures InBudget(Run(c, s, steps), h, MeterAfter(c, s, steps, h, m))
    decreases |steps|
  {
    if steps != [] {
      StepKeepsBudget(c, s, steps[0], h, m);
      StepKeepsMeter(c, s, steps[0], h, m);
      StepKeeps(c, s, steps[0]);
      StepKeepsQuota(c, s, steps[0]);
      StepKeepsClocks(c, s, steps[0]);
      RunKeepsBudget(c, Apply(c, s, steps[0]), steps[1..], h, Measure(c, s, steps[0], h, m));
    }
  }

  lemma {:induction false} TimesGrows(x: nat, m: nat, n: nat)
    requires m <= n
    ensures Times(x, m) <= Times(x, n)
    decreases n
  {
    if m < n { TimesGrows(x, m, n - 1); }
  }

  /** The most a day can charge: one ceiling for every reset it can see. */
  function DayMost(ceiling: nat, workers: nat): nat { Times(ceiling, Most(workers)) }

  lemma StateWithin(c: Config, s: State, h: Holder, m: Meter)
    requires h in s.db.holders && InBudget(s, h, m) && Metered(c, s, h, m) && QuotaHolds(c, s)
    ensures m.charged > 0 ==> m.late < Most(|s.workers|)
    ensures m.charged <= DayMost(Ceiling(Limit(c, s.db.holders, h), |s.workers|), |s.workers|)
  {
    MeteredSpends(c, s, h, m);
    TimesGrows(Ceiling(Limit(c, s.db.holders, h), |s.workers|), if m.charged > 0 then m.late + 1 else 0,
               Most(|s.workers|));
  }

  lemma RunWithin(c: Config, s: State, steps: seq<Step>, h: Holder)
    requires Init(s) && h in Run(c, s, steps).db.holders
    ensures var t, m := Run(c, s, steps), MeterAfter(c, s, steps, h, NOTHING);
            |t.workers| == |s.workers| && InBudget(t, h, m) && Metered(c, t, h, m) && QuotaHolds(c, t)
  {
    InitHolds(s);
    InitBounded(c, s);
    BudgetFits(s.db.holders, s.workers, h, DayOf(s.clock));
    RunKeepsBudget(c, s, steps, h, NOTHING);
    RunKeepsMeter(c, s, steps, h, NOTHING);
    RunKeepsQuota(c, s, steps);
    WorkersConstant(c, s, steps);
  }

  /** Fewer than W * (W + 3) / 2. */
  predicate FewLate(late: nat, workers: nat) { 2 * (late + 1) <= workers * (workers + 3) }

  lemma StateHasFewLate(s: State, h: Holder, m: Meter)
    requires h in s.db.holders && InBudget(s, h, m) && |s.workers| >= 1
    ensures FewLate(m.late, |s.workers|)
  {
    MostIs(|s.workers|);
    CostGrows(|s.workers|, 0, |s.workers|);
    assert m.late + 1 <= Most(|s.workers|);
  }

  /** In every run, a day sees fewer late resets than W * (W + 3) / 2. */
  lemma LateResetsBounded(c: Config, s: State, steps: seq<Step>, h: Holder)
    requires Init(s) && h in Run(c, s, steps).db.holders
    ensures FewLate(MeterAfter(c, s, steps, h, NOTHING).late, |s.workers|)
  {
    RunWithin(c, s, steps, h);
    StateHasFewLate(Run(c, s, steps), h, MeterAfter(c, s, steps, h, NOTHING));
  }

  /** Whatever the interleaving, the charges of a day stay within (limit + W - 1) * W * (W + 3) / 2. */
  lemma DayGrantsAlwaysBounded(c: Config, s: State, steps: seq<Step>, h: Holder)
    requires Init(s) && h in Run(c, s, steps).db.holders
    ensures MeterAfter(c, s, steps, h, NOTHING).charged
         <= DayMost(Ceiling(Limit(c, Run(c, s, steps).db.holders, h), |s.workers|), |s.workers|)
  {
    RunWithin(c, s, steps, h);
    StateWithin(c, Run(c, s, steps), h, MeterAfter(c, s, steps, h, NOTHING));
  }
}

/** How long a mail that ended with an exception shows its text: for good, unless a /check under way erases it. */
module Failures {
  import opened Prelude
  import opened Calendar
  import opened Quotas
  import opened Store
  import opened Protocol
  import opened Safety
  import opened QuotaBounds
  import opened Reach
  import opened Solo
  import opened Retry
  import opened RetryRuns

  /** Claimed, without a report, with this text; of the workers only some that will find it claimed come to it. */
  ghost predicate Ended(s: State, e: Id, text: string) {
    && e in s.db.events && s.db.events[e].started.Some? && s.db.events[e].analysis.None?
    && s.db.events[e].error == Failed(text)
    && (forall w: nat :: w < |s.workers| ==> Away(s.workers[w], e))
  }

  predicate Away(pc: Pc, e: Id) { pc.Idle? || pc.e != e || pc.Fetched? }

  /** A /check that found e refused before, and has seen free quota or may still see it. */
  ghost predicate Erasable(c: Config, s: State, e: Id)
    requires e in s.db.events
  {
    exists k :: k in s.checks && Erases(c, s, k, e)
  }

  predicate Erases(c: Config, s: State, k: CheckPc, e: Id)
    requires e in s.db.events
  {
    k.e == e && (k.SawQuota? || PayerLimit(c, s.db.holders, s.db.events[e].origin) >= 1)
  }

  // ----- Without such a /check the text stays -----

  lemma WorkKeepsEnded(c: Config, s: State, w: nat, e: Id, text: string)
    requires Ended(s, e, text) && w < |s.workers|
    ensures var t := WorkOn(c, s, w);
            e in t.db.events && t.db.events[e] == s.db.events[e] && Away(t.workers[w], e)
  {
    assert Away(s.workers[w], e);
    if !WritesEvent(s.workers[w]) { OtherWorkLeavesEvents(c, s, w); }
  }

  lemma CheckLeavesTexts(c: Config, db: Db, to: string, after: Cursor, live: bool, now: Instant, e: Id)
    requires e in db.events && db.events[e].error.Failed?
    ensures var r := Check(c, db, to, after, live, now); e in r.db.events && r.db.events[e] == db.events[e]
  {}

  lemma OutsideKeepsEvent(c: Config, s: State, step: Step, e: Id)
    requires Inv(s) && e in s.db.events && s.db.events[e].error.Failed? && !WorkerStep(step)
    requires step.CheckClear? ==> step.check !in s.checks || !step.check.SawQuota? || step.check.e != e
    ensures e in Apply(c, s, step).db.events && Apply(c, s, step).db.events[e] == s.db.events[e]
  {
    if step.CheckWhole? {
      CheckLeavesTexts(c, s.db, step.address, step.after, step.live, s.clock, e);
    } else if step.StoreMail? || step.Register? {
      ArrivalLeavesEvent(c, s, step, e);
    } else if !step.CheckClear? {
      ReadingStep(c, s, step);
    }
  }

  lemma ArrivalLeavesEvent(c: Config, s: State, step: Step, e: Id)
    requires Fresh(s.db) && e in s.db.events && (step.StoreMail? || step.Register?)
    ensures e in Apply(c, s, step).db.events && Apply(c, s, step).db.events[e] == s.db.events[e]
  {}

  lemma StepKeepsEnded(c: Config, s: State, step: Step, e: Id, text: string)
    requires Inv(s) && Ended(s, e, text) && !Erasable(c, s, e)
    ensures Ended(Apply(c, s, step), e, text)
  {
    var t := Apply(c, s, step);
    if step.Work? && step.worker < |s.workers| {
      WorkKeepsEnded(c, s, step.worker, e, text);
      WorkIsLocal(c, s, step.worker);
    } else if !WorkerStep(step) {
      if step.CheckClear? && step.check in s.checks { assert !Erases(c, s, step.check, e); }
      OutsideKeepsEvent(c, s, step, e);
      OutsideStep(c, s, step);
    }
    forall w: nat | w < |t.workers| ensures Away(t.workers[w], e) {
      if w < |s.workers| { assert Away(s.workers[w], e); }
    }
  }

  /** A payer that is allowed nothing has nothing left. */
  lemma NothingRemains(c: Config, s: State, o: Origin)
    requires QuotaHolds(c, s) && PayerLimit(c, s.db.holders, o) < 1
    ensures QuotaState(c, s.db, o, s.clock).remaining <= 0
  {
    if !HolderOf(o).Anonymous? && HolderOf(o) in s.db.holders {
      assert Bounded(c, s.db.holders, s.workers, HolderOf(o));
    }
  }

  /** No new /check gets hold of a mail that shows a text, and none that sees no quota gets further. */
  lemma CheckStaysHarmless(c: Config, s: State, step: Step, e: Id, k: CheckPc)
    requires Inv(s) && QuotaHolds(c, s) && ChecksOk(s) && e in s.db.events && s.db.events[e].error.Failed?
    requires !Erasable(c, s, e) && k in Apply(c, s, step).checks && k.e == e
    ensures k.SawRefusal? && k in s.checks
  {
    if k in s.checks {
      assert !Erases(c, s, k, e);
    } else if step.CheckQuota? {
      assert step.check in s.checks && step.check.e == e && step.check.o == k.o;
      assert !Erases(c, s, step.check, e);
      NothingRemains(c, s, k.o);
    } else if step.Work? && step.worker < |s.workers| {
      WorkLeavesCallers(c, s, step.worker);
    }
  }

  lemma StepKeepsHarmless(c: Config, s: State, step: Step, e: Id)
    requires Inv(s) && QuotaHolds(c, s) && ChecksOk(s) && e in s.db.events && s.db.events[e].error.Failed?
    requires !Erasable(c, s, e)
    ensures e in Apply(c, s, step).db.events && !Erasable(c, Apply(c, s, step), e)
  {
    var t := Apply(c, s, step);
    PayerLimitStays(c, s, step, e);
    forall k | k in t.checks ensures !Erases(c, t, k, e) {
      if k.e == e {
        CheckStaysHarmless(c, s, step, e, k);
        assert !Erases(c, s, k, e);
      }
    }
  }

  lemma {:induction false} TextStays(c: Config, s: State, steps: seq<Step>, e: Id, text: string)
    requires Inv(s) && QuotaHolds(c, s) && ChecksOk(s) && Ended(s, e, text) && !Erasable(c, s, e)
    ensures Ended(Run(c, s, steps), e, text)
    decreases |steps|
  {
    if steps != [] {
      StepKeepsEnded(c, s, steps[0], e, text);
      StepKeepsHarmless(c, s, steps[0], e);
      StepKeeps(c, s, steps[0]);
      StepKeepsQuota(c, s, steps[0]);
      StepKeepsChecks(c, s, steps[0]);
      TextStays(c, Apply(c, s, steps[0]), steps[1..], e, text);
    }
  }

  // ----- With one it can go -----

  lemma QuotaSeen(c: Config, s: State, e: Id, k: CheckPc) returns (t: State)
    requires Inv(s) && ChecksOk(s) && e in s.db.events && k in s.checks && k.SawRefusal? && Erases(c, s, k, e)
    ensures Reaches(c, s, t) && t.db == s.db && SawQuota(e, k.o, k.started) in t.checks
  {
    var at := GateOpensLater(c, s.db, k.o, s.clock);
    Stay(c, s);
    Go(c, s, s, Tick(at));
    t := Apply(c, s, Tick(at));
    Go(c, s, t, CheckQuota(k));
    t := Apply(c, t, CheckQuota(k));
  }

  lemma TextGoes(c: Config, s: State, e: Id, k: CheckPc) returns (t: State)
    requires Inv(s) && ChecksOk(s) && e in s.db.events && k in s.checks && Erases(c, s, k, e)
    ensures Reaches(c, s, t) && e in t.db.events && t.db.events[e].error.NoError?
  {
    var seen := SawQuota(e, k.o, k.started);
    if k.SawRefusal? {
      t := QuotaSeen(c, s, e, k);
    } else {
      t := s;
      Stay(c, s);
    }
    Go(c, s, t, CheckClear(seen));
    t := Apply(c, t, CheckClear(seen));
  }

  /** The text of a mail that ended stays in every run if and only if no /check is under way that can erase it. */
  lemma TextStaysExactly(c: Config, s: State, e: Id, text: string)
    requires Inv(s) && QuotaHolds(c, s) && ChecksOk(s) && Ended(s, e, text)
    ensures (forall steps :: Ended(Run(c, s, steps), e, text)) <==> !Erasable(c, s, e)
  {
    if Erasable(c, s, e) {
      var k :| k in s.checks && Erases(c, s, k, e);
      var t := TextGoes(c, s, e, k);
      var steps :| Leads(c, s, steps, t);
      assert !Ended(Run(c, s, steps), e, text);
    } else {
      forall steps ensures Ended(Run(c, s, steps), e, text) { TextStays(c, s, steps, e, text); }
    }
  }

  /** And as long as it stays, every /check that finds the mail shows it. */
  lemma EndedIsShown(c: Config, s: State, to: string, after: Cursor, live: bool, now: Instant, e: Id, text: string)
    requires Ended(s, e, text) && !after.Malformed?
    requires Newest(s.db.events, to, after, false, s.db.nextId) == Some(e)
    ensures Check(c, s.db, to, after, live, now).answer == Errored(e, text)
  {}

  // ----- After a retry that raises -----

  lemma {:induction false} WorksAreLocal(c: Config, s: State, w: nat, n: nat)
    requires w < |s.workers|
    ensures var t := Works(c, s, w, n);
            && |t.workers| == |s.workers| && t.checks == s.checks
            && (forall v: nat :: v < |s.workers| && v != w ==> t.workers[v] == s.workers[v])
    decreases n
  {
    if n > 0 {
      var t := Apply(c, s, Work(w));
      WorkIsLocal(c, s, w);
      WorkLeavesCallers(c, s, w);
      WorksAreLocal(c, t, w, n - 1);
      assert Works(c, s, w, n) == Works(c, t, w, n - 1);
    }
  }

  /** The failing run changes no other worker and no /check under way. */
  lemma FailingRunIsLocal(c: Config, s: State, w: nat, e: Id, text: string)
    requires w < |s.workers| && s.workers[w].Idle? && e in s.queue && Passes(c, s.db, e, s.clock)
    ensures var t := Run(c, s, FailingSteps(c, s, w, e, text));
            && |t.workers| == |s.workers| && t.checks == s.checks
            && (forall v: nat :: v < |s.workers| && v != w ==> t.workers[v] == s.workers[v])
  {
    var o := s.db.events[e].origin;
    var t := Apply(c, s, Take(w, e));
    var n := 2 + GateWorks(c, Claim(s.db, e, s.clock), o, s.clock);
    FailingRunSplits(c, s, w, e, text);
    WorksAreLocal(c, t, w, n);
    TailIsLocal(c, Works(c, t, w, n), w, text);
  }

  lemma TailIsLocal(c: Config, s: State, w: nat, text: string)
    requires w < |s.workers|
    ensures var t := Run(c, s, [Raise(w, text), Work(w)]);
            && |t.workers| == |s.workers| && t.checks == s.checks
            && (forall v: nat :: v < |s.workers| && v != w ==> t.workers[v] == s.workers[v])
  {
    var steps := [Raise(w, text), Work(w)];
    var s1 := Apply(c, s, Raise(w, text));
    assert Run(c, s, steps) == Run(c, s1, steps[1..]);
    assert Run(c, s1, steps[1..]) == Run(c, Apply(c, s1, Work(w)), []);
    WorkIsLocal(c, s1, w);
    WorkLeavesCallers(c, s1, w);
  }

  /** No worker and no /check is under way with e. */
  ghost predicate Alone(s: State, e: Id) {
    !UnderCheck(s, e) && (forall w: nat :: w < |s.workers| ==> Away(s.workers[w], e))
  }

  lemma FailingRunEnds(c: Config, s: State, w: nat, e: Id, text: string)
    requires Inv(s) && w < |s.workers| && s.workers[w].Idle? && e in s.queue && Passes(c, s.db, e, s.clock)
    requires Alone(s, e)
    ensures var t := Run(c, s, FailingSteps(c, s, w, e, text));
            Ended(t, e, text) && !Erasable(c, t, e)
  {
    assert EventOk(s.db, s.log, e);
    FailingRunIsAnalyzeMail(c, s, w, e, text);
    FailingRunIsLocal(c, s, w, e, text);
  }

  /** A retried mail whose analysis raises, with nobody else under way with it, shows the text in every later state. */
  lemma RetriedMailShowsItsFailureForGood(c: Config, s: State, to: string, after: Cursor, live: bool, e: Id, w: nat,
                                          text: string, later: seq<Step>)
    requires Inv(s) && QuotaHolds(c, s) && ChecksOk(s) && Retriable(s, to, after, e) && Alone(s, e)
    requires QuotaState(c, s.db, s.db.events[e].origin, s.clock).remaining > 0
    requires w < |s.workers| && s.workers[w].Idle?
    ensures var queued := Apply(c, s, CheckWhole(to, after, live));
            && Claimable(queued.db, e)
            && Ended(Run(c, Run(c, queued, FailingSteps(c, queued, w, e, text)), later), e, text)
  {
    CheckQueues(c, s, to, after, live, e);
    var queued := Apply(c, s, CheckWhole(to, after, live));
    StepKeeps(c, s, CheckWhole(to, after, live));
    StepKeepsQuota(c, s, CheckWhole(to, after, live));
    StepKeepsChecks(c, s, CheckWhole(to, after, live));
    FailingRunEnds(c, queued, w, e, text);
    RunKeeps(c, queued, FailingSteps(c, queued, w, e, text));
    RunKeepsQuota(c, queued, FailingSteps(c, queued, w, e, text));
    RunKeepsChecks(c, queued, FailingSteps(c, queued, w, e, text));
    TextStays(c, Run(c, queued, FailingSteps(c, queued, w, e, text)), later, e, text);
  }
}

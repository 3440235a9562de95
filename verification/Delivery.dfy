/** Which steps can lose a mail: exactly two kinds, and each only when its guard says so. */
module Delivery {
  import opened Calendar
  import opened Prelude
  import opened Store
  import opened Protocol
  import opened Safety
  import opened QuotaBounds
  import opened Retry
  import opened RetryRuns

  /** A live worker holds the mail. */
  ghost predicate Attended(s: State, e: Id) {
    exists w: nat :: w < |s.workers| && Holding(s.workers[w]) && s.workers[w].e == e
  }

  /** Claimed for good, with no report, no error to show and nobody working on it. */
  ghost predicate Lost(s: State, e: Id) {
    && e in s.db.events
    && s.db.events[e].started.Some? && s.db.events[e].analysis.None? && !s.db.events[e].error.Failed?
    && !Attended(s, e)
  }

  ghost predicate NoneLost(s: State) {
    forall e {:trigger Lost(s, e)} :: !Lost(s, e)
  }

  /** The guard: a crash of the worker that holds an unreported mail, or a late /check clear that erases the error of a
      mail whose worker has since failed. */
  ghost predicate Loses(s: State, step: Step, e: Id) {
    match step
    case Crash(w) =>
      && w < |s.workers| && Holding(s.workers[w]) && s.workers[w].e == e
      && e in s.db.events && s.db.events[e].analysis.None? && !s.db.events[e].error.Failed?
    case CheckClear(k) =>
      && k in s.checks && k.SawQuota? && k.e == e && e in s.db.events
      && s.db.events[e].started.Some? && s.db.events[e].analysis.None? && s.db.events[e].error.Failed?
      && !Attended(s, e)
    case _ => false
  }

  /** Whoever holds e is its last claimant. */
  lemma HolderIsClaimant(s: State, w: nat)
    requires Inv(s) && w < |s.workers| && Holding(s.workers[w])
    ensures var e := s.workers[w].e;
            e in s.db.events && s.db.events[e].started.Some? && e in s.log.claimant && s.log.claimant[e] == w
  {
    assert WorkerOk(s.db, s.log, s.workers[w], w);
  }

  /** Only worker w and the one mail it works on change; all other mails stay attended as they were. */
  lemma OthersNotLost(s: State, t: State, w: nat, e: Id, x: Id)
    requires NoneLost(s) && x != e
    requires w < |s.workers| == |t.workers| && t.workers == s.workers[w := t.workers[w]]
    requires x in t.db.events ==> x in s.db.events && t.db.events[x] == s.db.events[x]
    requires Holding(s.workers[w]) ==> s.workers[w].e == e
    ensures !Lost(t, x)
  {
    assert !Lost(s, x);
    if Attended(s, x) {
      var i: nat :| i < |s.workers| && Holding(s.workers[i]) && s.workers[i].e == x;
      assert Holding(t.workers[i]) && t.workers[i].e == x;
    }
  }

  lemma WorkLosesNothing(c: Config, s: State, w: nat, x: Id)
    requires Inv(s) && NoneLost(s) && w < |s.workers|
    ensures !Lost(WorkOn(c, s, w), x)
  {
    var pc := s.workers[w];
    var t := WorkOn(c, s, w);
    assert !Lost(s, x);
    if !pc.Idle? {
      assert WorkerOk(s.db, s.log, pc, w);
      assert t.workers == s.workers[w := t.workers[w]];
      if x != pc.e {
        OthersNotLost(s, t, w, pc.e, x);
      } else if Holding(t.workers[w]) {
        assert t.workers[w].e == x;
      } else if Attended(s, x) && !Holding(pc) {
        var i: nat :| i < |s.workers| && Holding(s.workers[i]) && s.workers[i].e == x;
        assert Holding(t.workers[i]) && t.workers[i].e == x;
      }
    }
  }

  /** Moving one worker that holds nothing, or that keeps holding the same mail. */
  lemma MoveLosesNothing(s: State, w: nat, pc: Pc, x: Id)
    requires NoneLost(s) && w < |s.workers|
    requires Holding(s.workers[w]) ==> Holding(pc) && pc.e == s.workers[w].e
    ensures !Lost(Goto(s, w, pc), x)
  {
    var t := Goto(s, w, pc);
    assert !Lost(s, x);
    if Attended(s, x) {
      var i: nat :| i < |s.workers| && Holding(s.workers[i]) && s.workers[i].e == x;
      assert Holding(t.workers[i]) && t.workers[i].e == x;
    }
  }

  lemma CrashLosesExactly(c: Config, s: State, w: nat, x: Id)
    requires Inv(s) && NoneLost(s)
    ensures Lost(Apply(c, s, Crash(w)), x) <==> Loses(s, Crash(w), x)
  {
    assert !Lost(s, x);
    if w < |s.workers| {
      var t := Goto(s, w, Idle);
      if Holding(s.workers[w]) && s.workers[w].e == x {
        HolderIsClaimant(s, w);
        forall i: nat | i < |t.workers| && Holding(t.workers[i]) ensures t.workers[i].e != x {
          HolderIsClaimant(s, i);
        }
      } else if Attended(s, x) {
        var i: nat :| i < |s.workers| && Holding(s.workers[i]) && s.workers[i].e == x;
        assert Holding(t.workers[i]) && t.workers[i].e == x;
      }
    }
  }

  /** Same workers: a mail becomes lost only where its error text is erased. */
  lemma CalmLosesExactly(s: State, t: State, x: Id)
    requires NoneLost(s) && t.workers == s.workers && Calm(s.db, t.db)
    ensures Lost(t, x) <==>
              && x in s.db.events && s.db.events[x].error.Failed? && !t.db.events[x].error.Failed?
              && s.db.events[x].started.Some? && s.db.events[x].analysis.None? && !Attended(s, x)
  {
    assert !Lost(s, x);
    assert Attended(s, x) <==> Attended(t, x);
  }

  lemma ClearLosesExactly(c: Config, s: State, k: CheckPc, x: Id)
    requires Inv(s) && NoneLost(s)
    ensures Lost(Apply(c, s, CheckClear(k)), x) <==> Loses(s, CheckClear(k), x)
  {
    OutsideStep(c, s, CheckClear(k));
    CalmLosesExactly(s, Apply(c, s, CheckClear(k)), x);
  }

  /** The one-step /check never erases an exception text. */
  lemma CheckKeepsErrors(c: Config, db: Db, to: string, after: Cursor, live: bool, now: Instant, x: Id)
    requires x in db.events && db.events[x].error.Failed?
    ensures Check(c, db, to, after, live, now).db.events[x] == db.events[x]
  {}

  lemma OutsideLosesExactly(c: Config, s: State, step: Step, x: Id)
    requires Inv(s) && NoneLost(s) && !WorkerStep(step)
    ensures Lost(Apply(c, s, step), x) <==> Loses(s, step, x)
  {
    OutsideStep(c, s, step);
    CalmLosesExactly(s, Apply(c, s, step), x);
    if step.CheckClear? {
      ClearLosesExactly(c, s, step.check, x);
    } else if step.CheckWhole? {
      if x in s.db.events && s.db.events[x].error.Failed? {
        CheckKeepsErrors(c, s.db, step.address, step.after, step.live, s.clock, x);
      }
    } else if !step.StoreMail? && !step.Register? {
      ReadingStep(c, s, step);
    }
  }

  /** Exactly which step loses which mail. */
  lemma StepLosesExactly(c: Config, s: State, step: Step, e: Id)
    requires Inv(s) && NoneLost(s)
    ensures Lost(Apply(c, s, step), e) <==> Loses(s, step, e)
  {
    match step
    case Work(w) => if w < |s.workers| { WorkLosesNothing(c, s, w, e); } else { assert !Lost(s, e); }
    case Take(w, x) =>
      assert !Lost(s, e);
      var t := Apply(c, s, step);
      if t.workers == s.workers {
        assert Attended(s, e) <==> Attended(t, e);
      } else {
        MoveLosesNothing(s, w, Fetched(x, s.db.events[x].origin), e);
        assert Attended(Goto(s, w, Fetched(x, s.db.events[x].origin)), e) <==> Attended(t, e);
      }
    case Raise(w, text) =>
      assert !Lost(s, e);
      if w < |s.workers| && InTry(s.workers[w]) {
        MoveLosesNothing(s, w, AtFail(s.workers[w].e, s.workers[w].o, Holding(s.workers[w]), text), e);
      }
    case Crash(w) => CrashLosesExactly(c, s, w, e);
    case _ => OutsideLosesExactly(c, s, step, e);
  }

  ghost predicate LosesSome(s: State, step: Step) { exists e :: Loses(s, step, e) }

  /** No mail is lost in any state of the run. */
  ghost predicate NeverLost(c: Config, s: State, steps: seq<Step>)
    decreases |steps|
  {
    NoneLost(s) && (steps == [] || NeverLost(c, Apply(c, s, steps[0]), steps[1..]))
  }

  /** No step of the run meets the guard. */
  ghost predicate NeverLoses(c: Config, s: State, steps: seq<Step>)
    decreases |steps|
  {
    steps == [] || (!LosesSome(s, steps[0]) && NeverLoses(c, Apply(c, s, steps[0]), steps[1..]))
  }

  lemma StepKeepsNoneLostExactly(c: Config, s: State, step: Step)
    requires Inv(s) && NoneLost(s)
    ensures NoneLost(Apply(c, s, step)) <==> !LosesSome(s, step)
  {
    forall e ensures Lost(Apply(c, s, step), e) <==> Loses(s, step, e) { StepLosesExactly(c, s, step, e); }
  }

  /** Exactly which runs lose nothing at any time, with crashes and overlapping checks. */
  lemma {:induction false} RunLosesExactly(c: Config, s: State, steps: seq<Step>)
    requires Inv(s) && NoneLost(s)
    ensures NeverLost(c, s, steps) <==> NeverLoses(c, s, steps)
    decreases |steps|
  {
    if steps != [] {
      var t := Apply(c, s, steps[0]);
      StepKeepsNoneLostExactly(c, s, steps[0]);
      StepKeeps(c, s, steps[0]);
      if NoneLost(t) {
        RunLosesExactly(c, t, steps[1..]);
      } else {
        assert !NeverLost(c, t, steps[1..]);
      }
    }
  }

  lemma {:induction false} NeverLostAtEnd(c: Config, s: State, steps: seq<Step>)
    requires NeverLost(c, s, steps)
    ensures NoneLost(Run(c, s, steps))
    decreases |steps|
  {
    if steps != [] { NeverLostAtEnd(c, Apply(c, s, steps[0]), steps[1..]); }
  }

  /** What has become of each mail after a run without a losing step: it is reported, in the hands of a live worker,
      ended with an error text, or unclaimed without one. An unclaimed one can still pass the gate if and only if it is
      open and its payer is allowed anything; one that is not open is never tried again. */
  lemma NoMailIsLost(c: Config, s: State, steps: seq<Step>, e: Id)
    requires Init(s) && NeverLoses(c, s, steps) && e in Run(c, s, steps).db.events
    ensures var t := Run(c, s, steps);
            var ev := t.db.events[e];
            || ev.analysis.Some?
            || Attended(t, e)
            || ev.error.Failed?
            || (ev.started.None? && (ev.error.NoError? || ev.error.QuotaExceeded?))
    ensures var t := Run(c, s, steps);
            Unclaimed(t, e) ==>
              (CanPass(c, t, e) <==> Open(t, e) && PayerLimit(c, t.db.holders, t.db.events[e].origin) >= 1)
  {
    InitHolds(s);
    RunLosesExactly(c, s, steps);
    NeverLostAtEnd(c, s, steps);
    assert !Lost(Run(c, s, steps), e);
    RunKeeps(c, s, steps);
    InitBounded(c, s);
    RunKeepsQuota(c, s, steps);
    RunKeepsChecks(c, s, steps);
    if Unclaimed(Run(c, s, steps), e) { CanPassExactly(c, Run(c, s, steps), e); }
  }

  /** No crash, nor what Crash stands for, and /check reads and clears in one step. */
  predicate Careful(step: Step) { !step.Crash? && !step.CheckClear? }

  /** A run of such steps has no losing one. */
  lemma {:induction false} CarefulRunNeverLoses(c: Config, s: State, steps: seq<Step>)
    requires forall i :: 0 <= i < |steps| ==> Careful(steps[i])
    ensures NeverLoses(c, s, steps)
    decreases |steps|
  {
    if steps != [] {
      assert Careful(steps[0]);
      CarefulRunNeverLoses(c, Apply(c, s, steps[0]), steps[1..]);
    }
  }
}

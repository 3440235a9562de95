/** Exactly which unclaimed mails can still pass the gate: the open ones whose payer is allowed anything at all. */
module RetryRuns {
  import opened Prelude
  import opened Calendar
  import opened Quotas
  import opened Store
  import opened Protocol
  import opened Safety
  import opened QuotaBounds
  import opened DailyGrants
  import opened Reach
  import opened Solo
  import opened Retry

  /** The daily limit of whoever pays for mails of this origin. */
  function PayerLimit(c: Config, hs: Holders, o: Origin): int {
    if HolderOf(o).Anonymous? then c.anonLimit else Limit(c, hs, HolderOf(o))
  }

  /** Limits of payers that some mail names do not change. */
  lemma PayerLimitStays(c: Config, s: State, step: Step, e: Id)
    requires Inv(s) && e in s.db.events
    ensures var t := Apply(c, s, step);
            && e in t.db.events && t.db.events[e].origin == s.db.events[e].origin
            && PayerLimit(c, t.db.holders, t.db.events[e].origin) == PayerLimit(c, s.db.holders, s.db.events[e].origin)
  {
    var h := HolderOf(s.db.events[e].origin);
    OriginStays(c, s, step, e);
    assert Named(s.db, h);
    if h in s.db.holders {
      RecordMoves(c, s, step, h);
    } else if h in Apply(c, s, step).db.holders {
      AppearsUnnamed(c, s, step, h);
    }
  }

  lemma OriginStays(c: Config, s: State, step: Step, e: Id)
    requires Fresh(s.db) && e in s.db.events
    ensures var t := Apply(c, s, step); e in t.db.events && t.db.events[e].origin == s.db.events[e].origin
  {
    if !WorkerStep(step) {
      OutsideStep(c, s, step);
    } else if step.Work? && step.worker < |s.workers| {
      WorkKeepsOrigin(c, s, step.worker, e);
    }
  }

  // ----- A limit of nothing -----

  /** The payer is allowed nothing, and nobody is about to charge it for e. */
  ghost predicate Barred(c: Config, s: State, e: Id) {
    && e in s.db.events && PayerLimit(c, s.db.holders, s.db.events[e].origin) < 1
    && (forall w: nat :: w < |s.workers| ==> !Charging(s.workers[w], e))
  }

  predicate Charging(pc: Pc, e: Id) { pc.AtCharge? && pc.e == e }

  lemma WorkKeepsBarred(c: Config, s: State, w: nat, e: Id)
    requires Inv(s) && QuotaHolds(c, s) && Barred(c, s, e) && w < |s.workers|
    ensures var t := WorkOn(c, s, w); !Charging(t.workers[w], e) && t.log.passes[e] == s.log.passes[e]
  {
    var pc := s.workers[w];
    if !pc.Idle? && pc.e == e {
      assert WorkerOk(s.db, s.log, pc, w) && KnowsLimit(c, s.db.holders, pc);
      var h := HolderOf(pc.o);
      if h in s.db.holders { assert Bounded(c, s.db.holders, s.workers, h); }
      assert !Charging(pc, e);
    }
  }

  lemma StepKeepsBarred(c: Config, s: State, step: Step, e: Id)
    requires Inv(s) && QuotaHolds(c, s) && Barred(c, s, e)
    ensures Barred(c, Apply(c, s, step), e) && Apply(c, s, step).log.passes[e] == s.log.passes[e]
  {
    var t := Apply(c, s, step);
    PayerLimitStays(c, s, step, e);
    if step.Work? && step.worker < |s.workers| {
      WorkKeepsBarred(c, s, step.worker, e);
      WorkIsLocal(c, s, step.worker);
    } else if !WorkerStep(step) {
      OutsideStep(c, s, step);
    }
    forall v: nat | v < |t.workers| ensures !Charging(t.workers[v], e) {
      if v < |s.workers| { assert !Charging(s.workers[v], e); }
    }
  }

  lemma {:induction false} NeverWithoutLimit(c: Config, s: State, steps: seq<Step>, e: Id)
    requires Inv(s) && QuotaHolds(c, s) && Barred(c, s, e)
    ensures Run(c, s, steps).log.passes[e] == s.log.passes[e]
    decreases |steps|
  {
    if steps != [] {
      StepKeepsBarred(c, s, steps[0], e);
      StepKeeps(c, s, steps[0]);
      StepKeepsQuota(c, s, steps[0]);
      NeverWithoutLimit(c, Apply(c, s, steps[0]), steps[1..], e);
    }
  }

  // ----- What callers carry -----

  /** A /check under way carries the origin of its mail. */
  ghost predicate ChecksOk(s: State) {
    forall k :: k in s.checks ==> k.e in s.db.events && s.db.events[k.e].origin == k.o
  }

  lemma StepKeepsChecks(c: Config, s: State, step: Step)
    requires Inv(s) && ChecksOk(s)
    ensures ChecksOk(Apply(c, s, step))
  {
    var t := Apply(c, s, step);
    forall k | k in t.checks ensures k.e in t.db.events && t.db.events[k.e].origin == k.o {
      CheckCarriesOrigin(c, s, step, k);
      OriginStays(c, s, step, k.e);
    }
  }

  lemma CheckCarriesOrigin(c: Config, s: State, step: Step, k: CheckPc)
    requires Inv(s) && ChecksOk(s) && k in Apply(c, s, step).checks
    ensures k.e in s.db.events && s.db.events[k.e].origin == k.o
  {
    if k !in s.checks {
      if step.Work? && step.worker < |s.workers| { WorkLeavesCallers(c, s, step.worker); }
      if step.CheckQuota? { assert step.check in s.checks && step.check.e == k.e && step.check.o == k.o; }
    }
  }

  lemma {:induction false} RunKeepsChecks(c: Config, s: State, steps: seq<Step>)
    requires Inv(s) && ChecksOk(s)
    ensures ChecksOk(Run(c, s, steps))
    decreases |steps|
  {
    if steps != [] {
      StepKeepsChecks(c, s, steps[0]);
      StepKeeps(c, s, steps[0]);
      RunKeepsChecks(c, Apply(c, s, steps[0]), steps[1..]);
    }
  }

  // ----- When quota is free again -----

  /** An instant after every finishing time below hi. */
  function LastFinish(events: map<Id, Event>, hi: Id): Instant {
    if hi == 0 then 0
    else
      var rest := LastFinish(events, hi - 1);
      if hi - 1 in events && events[hi - 1].analyzedAt.Some? then Max(rest, events[hi - 1].analyzedAt.value) else rest
  }

  lemma {:induction false} LastFinishIsLast(events: map<Id, Event>, hi: Id, e: Id)
    requires e < hi && e in events && events[e].analyzedAt.Some?
    ensures events[e].analyzedAt.value <= LastFinish(events, hi)
  {
    if e < hi - 1 { LastFinishIsLast(events, hi - 1, e); }
  }

  /** A payer that is allowed anything at all has quota again at some later time. */
  lemma GateOpensLater(c: Config, db: Db, o: Origin, from: Instant) returns (at: Instant)
    requires Fresh(db) && PayerLimit(c, db.holders, o) >= 1
    ensures from <= at && QuotaState(c, db, o, at).remaining > 0
  {
    var h := HolderOf(o);
    if h.Anonymous? {
      at := Max(from, LastFinish(db.events, db.nextId) + DAY);
      forall e | e in db.events ensures e !in UsageSet(db, UsageIp(o), at) {
        if db.events[e].analyzedAt.Some? { LastFinishIsLast(db.events, db.nextId, e); }
      }
      assert UsageSet(db, UsageIp(o), at) == {};
    } else {
      var r := RecordOf(db, h);
      at := if r.Some? && r.value.resetAt.Some? then Max(from, r.value.resetAt.value) else from;
    }
  }

  // ----- Runs that try a mail -----

  ghost predicate Ready(c: Config, s: State, e: Id) {
    && Inv(s) && ChecksOk(s) && |s.workers| >= 1 && Unclaimed(s, e)
    && PayerLimit(c, s.db.holders, s.db.events[e].origin) >= 1
  }

  /** One more step that leaves e unclaimed. */
  lemma Advance(c: Config, start: State, s: State, e: Id, step: Step) returns (t: State)
    requires Reaches(c, start, s) && Ready(c, s, e) && !step.Crash? && Unclaimed(Apply(c, s, step), e)
    ensures t == Apply(c, s, step) && Reaches(c, start, t) && Ready(c, t, e) && |t.workers| == |s.workers|
  {
    t := Apply(c, s, step);
    Go(c, start, s, step);
    StepKeeps(c, s, step);
    StepKeepsChecks(c, s, step);
    PayerLimitStays(c, s, step, e);
    WorkersConstant(c, s, [step]);
    assert Run(c, s, [step]) == Run(c, t, []);
  }

  /** Wait until the payer of e has quota. */
  lemma Await(c: Config, start: State, s: State, e: Id) returns (t: State)
    requires Reaches(c, start, s) && Ready(c, s, e)
    ensures Reaches(c, start, t) && Ready(c, t, e) && t == s.(clock := t.clock)
    ensures QuotaState(c, t.db, t.db.events[e].origin, t.clock).remaining > 0
  {
    var at := GateOpensLater(c, s.db, s.db.events[e].origin, s.clock);
    t := Advance(c, start, s, e, Tick(at));
  }

  lemma GoMany(c: Config, start: State, s: State, steps: seq<Step>)
    requires Reaches(c, start, s) && CrashFree(steps)
    ensures Reaches(c, start, Run(c, s, steps))
  {
    var first :| Leads(c, start, first, s);
    RunSplits(c, start, first, steps);
    assert Leads(c, start, first + steps, Run(c, s, steps));
  }

  lemma GoWorks(c: Config, start: State, s: State, w: nat, n: nat)
    requires Reaches(c, start, s)
    ensures Reaches(c, start, Works(c, s, w, n))
  {
    var steps := seq(n, i => Work(w));
    RunWorks(c, s, w, steps);
    GoMany(c, start, s, steps);
  }

  lemma PassesWhenFree(c: Config, db: Db, e: Id, now: Instant)
    requires Claimable(db, e) && QuotaState(c, db, db.events[e].origin, now).remaining > 0
    ensures Passes(c, db, e, now)
  {
    var o := db.events[e].origin;
    UsageStable(db, Claim(db, e, now), UsageIp(o), now);
    QuotaStateAnnouncesGate(c, db, o, now);
  }

  /** A worker about to claim e waits for quota and goes on. */
  lemma TakenPasses(c: Config, start: State, s: State, w: nat, e: Id) returns (t: State)
    requires Reaches(c, start, s) && Ready(c, s, e) && w < |s.workers| && Taken(s.workers[w], e)
    ensures Reaches(c, start, t) && t.log.passes[e] > 0
  {
    var o := s.db.events[e].origin;
    t := Await(c, start, s, e);
    assert WorkerOk(t.db, t.log, t.workers[w], w);
    PassesWhenFree(c, t.db, e, t.clock);
    PassStage(c, t, w, e, o);
    var n := 2 + GateWorks(c, Claim(t.db, e, t.clock), o, t.clock);
    GoWorks(c, start, t, w, n);
    t := Works(c, t, w, n);
  }

  lemma IdlePasses(c: Config, start: State, s: State, w: nat, e: Id) returns (t: State)
    requires Reaches(c, start, s) && Ready(c, s, e) && w < |s.workers| && s.workers[w].Idle? && e in s.queue
    ensures Reaches(c, start, t) && t.log.passes[e] > 0
  {
    t := Await(c, start, s, e);
    PassesWhenFree(c, t.db, e, t.clock);
    SoloRunIsAnalyzeMail(c, t, w, e);
    GoMany(c, start, t, SoloSteps(w, e));
    t := Run(c, t, SoloSteps(w, e));
  }

  /** How many operations a worker has left at most. */
  function Rank(pc: Pc): nat {
    match pc
    case Idle => 0
    case Linked(_, _) => 1
    case Refused(_, _) => 1
    case AtFail(_, _, _, _) => 1
    case AtLink(_, _, _, _, _) => 2
    case Inserted(_, _, _, _) => 3
    case AtRefuse(_, _) => 2
    case Analyzing(_, _, _) => 4
    case AtCharge(_, _, _) => 5
    case AtReset(_, _, _, _) => 6
    case AtGate(_, _, _) => 7
    case Claimed(_, _) => 8
    case Fetched(_, _) => 9
  }

  lemma WorkLowersRank(c: Config, s: State, w: nat)
    requires w < |s.workers| && !s.workers[w].Idle?
    ensures Rank(WorkOn(c, s, w).workers[w]) < Rank(s.workers[w])
  {}

  /** A worker that is not about to claim e finishes what it does, and e stays queued. */
  lemma {:induction false} Drain(c: Config, start: State, s: State, w: nat, e: Id) returns (t: State)
    requires Reaches(c, start, s) && Ready(c, s, e) && e in s.queue && w < |s.workers| && !Taken(s.workers[w], e)
    ensures Reaches(c, start, t) && Ready(c, t, e) && e in t.queue && w < |t.workers| && t.workers[w].Idle?
    decreases Rank(s.workers[w])
  {
    t := s;
    if !s.workers[w].Idle? {
      NobodyHolds(s, w, e);
      ClosedWork(c, s, w, e);
      WorkLowersRank(c, s, w);
      t := Advance(c, start, s, e, Work(w));
      t := Drain(c, start, t, w, e);
    }
  }

  lemma QueuedPasses(c: Config, start: State, s: State, e: Id) returns (t: State)
    requires Reaches(c, start, s) && Ready(c, s, e) && e in s.queue
    ensures Reaches(c, start, t) && t.log.passes[e] > 0
  {
    if Taken(s.workers[0], e) {
      t := TakenPasses(c, start, s, 0, e);
    } else {
      t := Drain(c, start, s, 0, e);
      t := IdlePasses(c, start, t, 0, e);
    }
  }

  lemma SentPasses(c: Config, start: State, s: State, e: Id) returns (t: State)
    requires Reaches(c, start, s) && Ready(c, s, e) && e in s.senders
    ensures Reaches(c, start, t) && t.log.passes[e] > 0
  {
    t := Advance(c, start, s, e, Send(e));
    t := QueuedPasses(c, start, t, e);
  }

  /** A /check under way sees the free quota. */
  lemma Seeing(c: Config, start: State, s: State, e: Id, k: CheckPc) returns (t: State)
    requires Reaches(c, start, s) && Ready(c, s, e) && k in s.checks && k.e == e && k.SawRefusal?
    ensures Reaches(c, start, t) && Ready(c, t, e) && t.db == s.db && SawQuota(e, k.o, k.started) in t.checks
  {
    var later := Await(c, start, s, e);
    t := Advance(c, start, later, e, CheckQuota(k));
  }

  /** It clears. */
  lemma Clearing(c: Config, start: State, s: State, e: Id, k: CheckPc) returns (t: State)
    requires Reaches(c, start, s) && Ready(c, s, e) && k in s.checks && k.e == e
    ensures Reaches(c, start, t) && Ready(c, t, e) && t.db == SetError(s.db, e, NoError)
    ensures !k.started ==> e in t.senders
  {
    if k.SawRefusal? {
      var free := Seeing(c, start, s, e, k);
      t := Advance(c, start, free, e, CheckClear(SawQuota(e, k.o, k.started)));
    } else {
      t := Advance(c, start, s, e, CheckClear(k));
    }
  }

  lemma NewestPasses(c: Config, start: State, s: State, e: Id) returns (t: State)
    requires Reaches(c, start, s) && Ready(c, s, e)
    requires !HasNewer(s.db.events, e) && !s.db.events[e].error.Failed?
    ensures Reaches(c, start, t) && t.log.passes[e] > 0
  {
    var to := s.db.events[e].to;
    t := Await(c, start, s, e);
    LastIsNewest(t, e);
    CheckQueues(c, t, to, NoCursor, true, e);
    t := Advance(c, start, t, e, CheckWhole(to, NoCursor, true));
    t := QueuedPasses(c, start, t, e);
  }

  lemma LastIsNewest(s: State, e: Id)
    requires Inv(s) && Unclaimed(s, e) && !HasNewer(s.db.events, e) && !s.db.events[e].error.Failed?
    ensures Retriable(s, s.db.events[e].to, NoCursor, e)
  {
    var to := s.db.events[e].to;
    var found := Newest(s.db.events, to, NoCursor, false, s.db.nextId);
    assert EventOk(s.db, s.log, e);
    assert Matches(e, s.db.events[e], to, NoCursor, false);
    assert found.Some? && found.value >= e && s.db.events[found.value].to == to;
  }

  lemma ClearedPasses(c: Config, start: State, s: State, e: Id, k: CheckPc) returns (t: State)
    requires Reaches(c, start, s) && Ready(c, s, e) && k in s.checks && k.e == e
    requires !HasNewer(s.db.events, e) || !k.started
    ensures Reaches(c, start, t) && t.log.passes[e] > 0
  {
    t := Clearing(c, start, s, e, k);
    if k.started {
      NewerStays(s.db.events, t.db.events, e);
      t := NewestPasses(c, start, t, e);
    } else {
      t := SentPasses(c, start, t, e);
    }
  }

  lemma OpenPasses(c: Config, s: State, e: Id) returns (t: State)
    requires Ready(c, s, e) && Open(s, e)
    ensures Reaches(c, s, t) && t.log.passes[e] > 0
  {
    Stay(c, s);
    if e in s.queue {
      t := QueuedPasses(c, s, s, e);
    } else if e in s.senders {
      t := SentPasses(c, s, s, e);
    } else if w: nat :| w < |s.workers| && Taken(s.workers[w], e) {
      t := TakenPasses(c, s, s, w, e);
    } else if k :| k in s.checks && WillQueue(k, e) {
      t := ClearedPasses(c, s, s, e, k);
    } else if !s.db.events[e].error.Failed? {
      t := NewestPasses(c, s, s, e);
    } else {
      var k :| k in s.checks && k.e == e;
      t := ClearedPasses(c, s, s, e, k);
    }
  }

  /** Some run from here, without a crash, takes e through the gate. */
  ghost predicate CanPass(c: Config, s: State, e: Id) { exists t :: Reaches(c, s, t) && t.log.passes[e] > 0 }

  /** An unclaimed mail can still pass the gate if and only if it is open and its payer is allowed anything. */
  lemma CanPassExactly(c: Config, s: State, e: Id)
    requires Inv(s) && QuotaHolds(c, s) && ChecksOk(s) && |s.workers| >= 1 && Unclaimed(s, e)
    ensures CanPass(c, s, e) <==> Open(s, e) && PayerLimit(c, s.db.holders, s.db.events[e].origin) >= 1
  {
    assert EventOk(s.db, s.log, e);
    if PayerLimit(c, s.db.holders, s.db.events[e].origin) < 1 {
      WaitingIsBarred(c, s, e);
      forall t | Reaches(c, s, t) ensures t.log.passes[e] == 0 {
        var steps :| Leads(c, s, steps, t);
        NeverWithoutLimit(c, s, steps, e);
      }
    } else if Open(s, e) {
      var t := OpenPasses(c, s, e);
    } else {
      forall t | Reaches(c, s, t) ensures t.log.passes[e] == 0 {
        var steps :| Leads(c, s, steps, t);
        NeverTriedAgain(c, s, steps, e);
      }
    }
  }

  lemma WaitingIsBarred(c: Config, s: State, e: Id)
    requires Inv(s) && Unclaimed(s, e) && PayerLimit(c, s.db.holders, s.db.events[e].origin) < 1
    ensures Barred(c, s, e)
  {
    forall w: nat | w < |s.workers| ensures !Charging(s.workers[w], e) {
      assert WorkerOk(s.db, s.log, s.workers[w], w);
    }
  }
}

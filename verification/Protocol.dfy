/**
 The mail pipeline as an interleaved state machine: ingest, /check callers, a task queue and W workers, one database
 operation per step. A task may be duplicated, a caller or worker may stop between any two operations, and any
 operation inside the worker's try block may raise. A step that is not enabled leaves the state as it is, so a run is
 any sequence of steps.
 */
module Protocol {
  import opened Prelude
  import opened Calendar
  import opened Quotas
  import opened Store

  /** Where a worker stands in its task: the next database operation, with the values it has read so far.
      `since` is the instant at which the worker entered the quota gate. */
  datatype Pc =
    | Idle
    | Fetched(e: Id, o: Origin)                                    // next: compare-and-set claim
    | Claimed(e: Id, o: Origin)                                    // next: read the clock
    | AtGate(e: Id, o: Origin, since: Instant)                         // next: read the quota
    | AtReset(e: Id, o: Origin, since: Instant, limit: int)            // next: write the reset
    | AtCharge(e: Id, o: Origin, since: Instant)                       // next: increment the count
    | AtRefuse(e: Id, o: Origin)                                   // next: write the refusal, release the claim
    | Refused(e: Id, o: Origin)                                    // next: note the refusal on the address
    | Analyzing(e: Id, o: Origin, since: Instant)                      // next: insert the analysis
    | Inserted(e: Id, o: Origin, since: Instant, aid: Id)             // next: read the clock
    | AtLink(e: Id, o: Origin, since: Instant, aid: Id, at: Instant)      // next: link the analysis
    | Linked(e: Id, o: Origin)                                     // next: note the result on the address
    | AtFail(e: Id, o: Origin, held: bool, text: string)           // next: write the exception text

  /** A /check call that found a quota refusal, before and after it has read the quota. */
  datatype CheckPc =
    | SawRefusal(e: Id, o: Origin, started: bool)
    | SawQuota(e: Id, o: Origin, started: bool)

  datatype Charge = Charge(event: Id, holder: Holder)

  /** History that no code reads: gate passes, charges, and the last worker to win the claim of each event. */
  datatype Log = Log(passes: multiset<Id>, charges: multiset<Charge>, claimant: map<Id, nat>)

  datatype State = State(
    db: Db,
    queue: multiset<Id>,
    senders: multiset<Id>,      // ingest and /check callers about to queue an event
    checks: multiset<CheckPc>,
    workers: seq<Pc>,
    clock: Instant,
    log: Log)

  /** Crash(w) leaves worker w idle with nothing more written. It stands for the death of the worker, and for whatever
      ends its task outside the exception path while the worker lives on: the write of the error text raising itself, or
      a claim that is applied although its answer is lost. */
  datatype Step =
    | Tick(to: Instant)
    | Register(holder: Holder, quota: Quota)
    | StoreMail(address: string, origin: Origin)
    | Send(event: Id)
    | LoseSend(event: Id)
    | Duplicate(event: Id)
    | Take(worker: nat, event: Id)
    | Work(worker: nat)
    | Raise(worker: nat, text: string)
    | Crash(worker: nat)
    | CheckWhole(address: string, after: Cursor, live: bool)
    | CheckFind(address: string, after: Cursor)
    | CheckQuota(check: CheckPc)
    | CheckClear(check: CheckPc)
    | CheckStop(check: CheckPc)

  /** A worker holds its event from the claim it won until it writes a refusal, a link or an exception. */
  predicate Holding(pc: Pc) {
    match pc
    case Idle | Fetched(_, _) | Refused(_, _) | Linked(_, _) => false
    case AtFail(_, _, held, _) => held
    case _ => true
  }

  function Goto(s: State, w: nat, pc: Pc): State
    requires w < |s.workers|
  {
    s.(workers := s.workers[w := pc])
  }

  /** After the local count is known: refuse at the limit, otherwise go and charge. */
  function Decide(pc: Pc, used: int, limit: int): Pc
    requires pc.AtGate? || pc.AtReset?
  {
    if used >= limit then AtRefuse(pc.e, pc.o) else AtCharge(pc.e, pc.o, pc.since)
  }

  function ReadQuota(c: Config, s: State, w: nat): State
    requires w < |s.workers| && s.workers[w].AtGate?
  {
    var pc := s.workers[w];
    var h := HolderOf(pc.o);
    if h.Anonymous? then
      if AnonymousUsage(s.db, pc.o, pc.since) < c.anonLimit
      then Goto(s, w, Analyzing(pc.e, pc.o, pc.since)).(log := s.log.(passes := s.log.passes + multiset{pc.e}))
      else Goto(s, w, AtRefuse(pc.e, pc.o))
    else
      var r := RecordOf(s.db, h);
      var limit := LimitOf(r, DefaultLimit(c, h));
      if Expired(r, pc.since) then Goto(s, w, AtReset(pc.e, pc.o, pc.since, limit))
      else Goto(s, w, Decide(pc, UsedOf(r), limit))
  }

  function ChargeHolder(s: State, w: nat): State
    requires w < |s.workers| && s.workers[w].AtCharge?
  {
    var pc := s.workers[w];
    var h := HolderOf(pc.o);
    Goto(s, w, Analyzing(pc.e, pc.o, pc.since)).(
      db := UpdateHolder(s.db, h, WriteCharge(RecordOf(s.db, h))),
      log := s.log.(passes := s.log.passes + multiset{pc.e}, charges := s.log.charges + multiset{Charge(pc.e, h)}))
  }

  /** The next operation of worker w. */
  function WorkOn(c: Config, s: State, w: nat): State
    requires w < |s.workers|
  {
    var pc := s.workers[w];
    match pc
    case Idle => s
    case Fetched(e, o) =>
      if Claimable(s.db, e)
      then Goto(s, w, Claimed(e, o)).(db := Claim(s.db, e, s.clock),
                                      log := s.log.(claimant := s.log.claimant[e := w]))
      else Goto(s, w, Idle)
    case Claimed(e, o) => Goto(s, w, AtGate(e, o, s.clock))
    case AtGate(_, _, _) => ReadQuota(c, s, w)
    case AtReset(_, o, since, limit) =>
      Goto(s, w, Decide(pc, 0, limit)).(
        db := UpdateHolder(s.db, HolderOf(o), WriteReset(RecordOf(s.db, HolderOf(o)), since)))
    case AtCharge(_, _, _) => ChargeHolder(s, w)
    case AtRefuse(e, o) => Goto(s, w, Refused(e, o)).(db := Release(s.db, e))
    case Refused(_, _) => Goto(s, w, Idle)
    case Analyzing(e, o, since) =>
      Goto(s, w, Inserted(e, o, since, s.db.nextId)).(db := InsertAnalysis(s.db, e))
    case Inserted(e, o, since, aid) => Goto(s, w, AtLink(e, o, since, aid, s.clock))
    case AtLink(e, o, _, aid, at) => Goto(s, w, Linked(e, o)).(db := Link(s.db, e, aid, at))
    case Linked(_, _) => Goto(s, w, Idle)
    case AtFail(e, _, _, text) => Goto(s, w, Idle).(db := SetError(s.db, e, Failed(text)))
  }

  predicate WritesEvent(pc: Pc) { pc.Fetched? || pc.AtRefuse? || pc.AtLink? || pc.AtFail? }

  predicate WritesHolder(pc: Pc) { pc.AtReset? || pc.AtCharge? }

  lemma OtherWorkLeavesEvents(c: Config, s: State, w: nat)
    requires w < |s.workers| && !WritesEvent(s.workers[w])
    ensures WorkOn(c, s, w).db.events == s.db.events
  {}

  lemma OtherWorkLeavesHolders(c: Config, s: State, w: nat)
    requires w < |s.workers| && !WritesHolder(s.workers[w])
    ensures WorkOn(c, s, w).db.holders == s.db.holders
  {}

  lemma WorkIsLocal(c: Config, s: State, w: nat)
    requires w < |s.workers|
    ensures var t := WorkOn(c, s, w);
            t.workers == s.workers[w := t.workers[w]] && t.clock == s.clock
  {}

  /** Only the operations inside the try block lead to the exception path. */
  predicate InTry(pc: Pc) { !pc.Idle? && !pc.Fetched? && !pc.AtFail? }

  function FindForCheck(s: State, to: string, after: Cursor): State {
    if after.Malformed? then s
    else
      var found := Newest(s.db.events, to, after, false, s.db.nextId);
      if found.None? then s
      else
        var e := found.value;
        var ev := s.db.events[e];
        if ev.analysis.Some? || ev.error.Failed? then s
        else if ev.error.QuotaExceeded? then
          s.(checks := s.checks + multiset{SawRefusal(e, ev.origin, ev.started.Some?)})
        else if ev.started.None? then s.(senders := s.senders + multiset{e})
        else s
  }

  function Apply(c: Config, s: State, step: Step): State {
    match step
    case Tick(to) => if s.clock <= to then s.(clock := to) else s
    case Register(h, q) =>
      // A new holder has a new id, so no mail names it yet.
      if !h.Anonymous? && h !in s.db.holders && (forall e | e in s.db.events :: HolderOf(s.db.events[e].origin) != h)
         && NewHolder(q)
      then s.(db := s.db.(holders := s.db.holders[h := q]))
      else s
    case StoreMail(to, o) => s.(db := InsertEvent(s.db, to, o), senders := s.senders + multiset{s.db.nextId})
    case Send(e) =>
      if e in s.senders then s.(senders := s.senders - multiset{e}, queue := s.queue + multiset{e}) else s
    case LoseSend(e) => s.(senders := s.senders - multiset{e})
    case Duplicate(e) => if e in s.queue then s.(queue := s.queue + multiset{e}) else s
    case Take(w, e) =>
      if w < |s.workers| && s.workers[w].Idle? && e in s.queue then
        var taken := s.(queue := s.queue - multiset{e});
        if e in s.db.events then Goto(taken, w, Fetched(e, s.db.events[e].origin)) else taken
      else s
    case Work(w) => if w < |s.workers| then WorkOn(c, s, w) else s
    case Raise(w, text) =>
      if w < |s.workers| && InTry(s.workers[w])
      then Goto(s, w, AtFail(s.workers[w].e, s.workers[w].o, Holding(s.workers[w]), text))
      else s
    case Crash(w) => if w < |s.workers| then Goto(s, w, Idle) else s
    case CheckWhole(to, after, live) =>
      var r := Check(c, s.db, to, after, live, s.clock);
      s.(db := r.db, queue := if r.enqueue.Some? then s.queue + multiset{r.enqueue.value} else s.queue)
    case CheckFind(to, after) => FindForCheck(s, to, after)
    case CheckQuota(k) =>
      if k in s.checks && k.SawRefusal? then
        var rest := s.checks - multiset{k};
        if QuotaState(c, s.db, k.o, s.clock).remaining <= 0 then s.(checks := rest)
        else s.(checks := rest + multiset{SawQuota(k.e, k.o, k.started)})
      else s
    case CheckClear(k) =>
      if k in s.checks && k.SawQuota? then
        s.(checks := s.checks - multiset{k},
           db := SetError(s.db, k.e, NoError),
           senders := if k.started then s.senders else s.senders + multiset{k.e})
      else s
    case CheckStop(k) => s.(checks := s.checks - multiset{k})
  }

  /** The quota record registration and key creation write: nothing used, reset at midnight. */
  predicate NewHolder(q: Quota) {
    q.limit.Some? && q.used == Some(0) && q.resetAt.Some? && Midnight(q.resetAt.value)
  }

  predicate WorkerStep(step: Step) { step.Work? || step.Take? || step.Raise? || step.Crash? }

  /** Claims, links and reports stay as they are; holders and error texts may change and new mail may arrive. */
  ghost predicate Calm(db: Db, db': Db) {
    && db'.analyses == db.analyses
    && (forall x :: x in db.events ==> x in db'.events && db'.events[x] == db.events[x].(error := db'.events[x].error))
    && (forall x :: x in db'.events && x !in db.events ==>
                      db'.events[x].started.None? && db'.events[x].analysis.None?)
  }

  lemma CheckIsCalm(c: Config, db: Db, to: string, after: Cursor, live: bool, now: Instant)
    requires Fresh(db)
    ensures var db' := Check(c, db, to, after, live, now).db;
            Fresh(db') && Calm(db, db') && db'.holders == db.holders
  {
    var db' := Check(c, db, to, after, live, now).db;
    assert db' != db ==> exists e :: db' == SetError(db, e, NoError);
  }

  ghost predicate LeavesCore(s: State, t: State) {
    t.workers == s.workers && t.log == s.log && Fresh(t.db) && Calm(s.db, t.db)
  }

  lemma ArrivalIsCalm(c: Config, s: State, step: Step)
    requires Fresh(s.db) && (step.StoreMail? || step.Register?)
    ensures LeavesCore(s, Apply(c, s, step))
    ensures step.StoreMail? ==> Apply(c, s, step).db.holders == s.db.holders
  {}

  lemma ClearIsCalm(db: Db, e: Id)
    requires Fresh(db)
    ensures Fresh(SetError(db, e, NoError)) && Calm(db, SetError(db, e, NoError))
  {}

  lemma CheckStepIsCalm(c: Config, s: State, step: Step)
    requires Fresh(s.db) && (step.CheckWhole? || step.CheckClear?)
    ensures LeavesCore(s, Apply(c, s, step))
    ensures Apply(c, s, step).db.holders == s.db.holders
  {
    if step.CheckWhole? {
      CheckIsCalm(c, s.db, step.address, step.after, step.live, s.clock);
    } else {
      ClearIsCalm(s.db, step.check.e);
    }
  }

  lemma ReadingStep(c: Config, s: State, step: Step)
    requires step.Tick? || step.Send? || step.LoseSend? || step.Duplicate?
             || step.CheckFind? || step.CheckQuota? || step.CheckStop?
    ensures var t := Apply(c, s, step);
            t.db == s.db && t.workers == s.workers && t.log == s.log
  {}

  /** Callers, the queue and the clock leave workers, holders, claims and reports alone. */
  lemma OutsideStep(c: Config, s: State, step: Step)
    requires !WorkerStep(step) && Fresh(s.db)
    ensures LeavesCore(s, Apply(c, s, step))
    ensures !step.Register? ==> Apply(c, s, step).db.holders == s.db.holders
  {
    if step.StoreMail? || step.Register? {
      ArrivalIsCalm(c, s, step);
    } else if step.CheckWhole? || step.CheckClear? {
      CheckStepIsCalm(c, s, step);
    } else {
      ReadingStep(c, s, step);
    }
  }

  function Run(c: Config, s: State, steps: seq<Step>): State
    decreases |steps|
  {
    if steps == [] then s else Run(c, Apply(c, s, steps[0]), steps[1..])
  }

  lemma {:induction false} RunSplits(c: Config, s: State, first: seq<Step>, rest: seq<Step>)
    ensures Run(c, s, first + rest) == Run(c, Run(c, s, first), rest)
    decreases |first|
  {
    if first == [] {
      assert [] + rest == rest;
    } else {
      assert (first + rest)[0] == first[0] && (first + rest)[1..] == first[1..] + rest;
      RunSplits(c, Apply(c, s, first[0]), first[1..], rest);
    }
  }

  lemma {:induction false} WorkersConstant(c: Config, s: State, steps: seq<Step>)
    ensures |Run(c, s, steps).workers| == |s.workers|
    decreases |steps|
  {
    if steps != [] {
      WorkersConstant(c, Apply(c, s, steps[0]), steps[1..]);
    }
  }

  /** An idle system before any mail: W workers, any accounts and keys, no events. */
  predicate Init(s: State) {
    && s.db.events == map[] && s.db.analyses == map[]
    && s.queue == multiset{} && s.senders == multiset{} && s.checks == multiset{}
    && |s.workers| >= 1 && (forall w | 0 <= w < |s.workers| :: s.workers[w].Idle?)
    && s.log == Log(multiset{}, multiset{}, map[])
    && (forall h | h in s.db.holders :: !h.Anonymous? && NewHolder(s.db.holders[h]))
  }

  /** The most that W workers racing for a limit can make of it. */
  function Ceiling(limit: int, workers: nat): nat { if limit >= 1 then limit + workers - 1 else 0 }

  /** Values a worker has read from the clock are not in the future. */
  predicate NotFuture(pc: Pc, clock: Instant) {
    match pc
    case AtGate(_, _, since) => since <= clock
    case AtReset(_, _, since, _) => since <= clock
    case AtCharge(_, _, since) => since <= clock
    case Analyzing(_, _, since) => since <= clock
    case Inserted(_, _, since, _) => since <= clock
    case _ => true
  }

  ghost predicate NobodyAhead(ws: seq<Pc>, clock: Instant) { forall w :: 0 <= w < |ws| ==> NotFuture(ws[w], clock) }

  lemma WorkKeepsClocks(c: Config, s: State, w: nat)
    requires NobodyAhead(s.workers, s.clock) && w < |s.workers|
    ensures NotFuture(WorkOn(c, s, w).workers[w], s.clock)
  {
    assert NotFuture(s.workers[w], s.clock);
  }

  /** What workers have read from the clock never lies in the future. */
  lemma StepKeepsClocks(c: Config, s: State, step: Step)
    requires NobodyAhead(s.workers, s.clock)
    ensures NobodyAhead(Apply(c, s, step).workers, Apply(c, s, step).clock)
  {
    var t := Apply(c, s, step);
    if step.Work? && step.worker < |s.workers| {
      WorkKeepsClocks(c, s, step.worker);
      WorkIsLocal(c, s, step.worker);
    }
    forall w | 0 <= w < |t.workers| ensures NotFuture(t.workers[w], t.clock) {
      if w < |s.workers| { assert NotFuture(s.workers[w], s.clock); }
    }
  }
}

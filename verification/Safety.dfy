/** What every step of the pipeline keeps, and what it means for each mail: at most one gate pass, charge and report. */
module Safety {
  import opened Prelude
  import opened Store
  import opened Protocol

  ghost predicate NoReport(db: Db, e: Id) {
    forall a :: a in db.analyses ==> db.analyses[a] != e
  }

  ghost predicate EventOk(db: Db, log: Log, e: Id)
    requires e in db.events
  {
    var ev := db.events[e];
    && log.passes[e] <= 1
    && (ev.started.None? ==> log.passes[e] == 0 && ev.analysis.None?)
    && (ev.analysis.Some? ==>
          ev.analysis.value in db.analyses && db.analyses[ev.analysis.value] == e && ev.analyzedAt.Some?)
  }

  predicate BeforePass(pc: Pc) { pc.Claimed? || pc.AtGate? || pc.AtReset? || pc.AtCharge? || pc.AtRefuse? }

  ghost predicate WorkerOk(db: Db, log: Log, pc: Pc, w: nat) {
    pc.Idle? ||
    (&& pc.e in db.events && db.events[pc.e].origin == pc.o
     && (Holding(pc) ==>
           db.events[pc.e].started.Some? && pc.e in log.claimant && log.claimant[pc.e] == w)
     && (Holding(pc) && !pc.AtFail? ==> db.events[pc.e].analysis.None?)
     && (BeforePass(pc) ==> log.passes[pc.e] == 0)
     && (pc.AtReset? || pc.AtCharge? ==> !HolderOf(pc.o).Anonymous?)
     && (pc.Analyzing? ==> log.passes[pc.e] == 1 && NoReport(db, pc.e))
     && (pc.Inserted? || pc.AtLink? ==>
           log.passes[pc.e] == 1 && pc.aid in db.analyses && db.analyses[pc.aid] == pc.e))
  }

  ghost predicate WorkersOk(db: Db, log: Log, ws: seq<Pc>) {
    forall w {:trigger ws[w]} :: 0 <= w < |ws| ==> WorkerOk(db, log, ws[w], w)
  }

  ghost predicate EventsOk(db: Db, log: Log) {
    forall e {:trigger EventOk(db, log, e)} :: e in db.events ==> EventOk(db, log, e)
  }

  /** Reports belong to events that passed the gate, and no two of them to the same event. */
  ghost predicate ReportsOk(db: Db, log: Log) {
    && (forall a :: a in db.analyses ==> log.passes[db.analyses[a]] == 1)
    && (forall a, b :: a in db.analyses && b in db.analyses && db.analyses[a] == db.analyses[b] ==> a == b)
  }

  ghost predicate ChargesOk(db: Db, log: Log) {
    && (forall e :: e in log.passes ==> e in db.events)
    && (forall ch :: ch in log.charges ==>
          && ch.event in db.events
          && ch.holder == HolderOf(db.events[ch.event].origin) && !ch.holder.Anonymous?
          && log.charges[ch] <= log.passes[ch.event])
  }

  ghost predicate Sound(db: Db, ws: seq<Pc>, log: Log) {
    Fresh(db) && EventsOk(db, log) && WorkersOk(db, log, ws) && ReportsOk(db, log) && ChargesOk(db, log)
  }

  ghost predicate Inv(s: State) { Sound(s.db, s.workers, s.log) }

  /** A step that concerns only event e. */
  ghost predicate OnlyAbout(db: Db, log: Log, db': Db, log': Log, e: Id) {
    && db'.events.Keys == db.events.Keys
    && (forall x :: x in db.events ==> db'.events[x].origin == db.events[x].origin)
    && (forall x :: x in db.events && x != e ==> db'.events[x] == db.events[x])
    && (forall a :: a in db.analyses ==> a in db'.analyses && db'.analyses[a] == db.analyses[a])
    && (forall a :: a in db'.analyses && a !in db.analyses ==> db'.analyses[a] == e)
    && (forall x :: x != e ==> log'.passes[x] == log.passes[x])
    && (forall x :: x != e && x in log.claimant ==> x in log'.claimant && log'.claimant[x] == log.claimant[x])
  }

  /** The claim of e is free, or worker w has it. */
  ghost predicate Owns(db: Db, ws: seq<Pc>, w: nat, e: Id) {
    && w < |ws| && e in db.events && !ws[w].Idle? && ws[w].e == e
    && (Holding(ws[w]) || db.events[e].started.None?)
  }

  lemma OthersKeep(s: State, db: Db, log: Log, w: nat, pc: Pc)
    requires Inv(s) && !pc.Idle? && Owns(s.db, s.workers, w, pc.e)
    requires OnlyAbout(s.db, s.log, db, log, pc.e)
    requires WorkerOk(db, log, pc, w) && EventOk(db, log, pc.e)
    ensures WorkersOk(db, log, s.workers[w := pc]) && EventsOk(db, log)
  {
    var ws := s.workers[w := pc];
    assert WorkerOk(s.db, s.log, s.workers[w], w);
    forall i | 0 <= i < |ws| ensures WorkerOk(db, log, ws[i], i) {
      var other := s.workers[i];
      assert WorkerOk(s.db, s.log, other, i);
      if i != w && !other.Idle? {
        assert other.e == pc.e ==> !Holding(other);
        assert WorkerOk(db, log, other, i);
      }
    }
    forall x | x in db.events ensures EventOk(db, log, x) {
      assert x != pc.e ==> EventOk(s.db, s.log, x);
    }
  }

  /** A worker that moves on inside the gate, without writing. */
  lemma MoveKeeps(s: State, w: nat, pc: Pc)
    requires Inv(s) && w < |s.workers| && BeforePass(s.workers[w]) && BeforePass(pc)
    requires pc.e == s.workers[w].e && pc.o == s.workers[w].o
    requires pc.AtReset? || pc.AtCharge? ==> !HolderOf(pc.o).Anonymous?
    ensures Inv(Goto(s, w, pc))
  {
    assert WorkerOk(s.db, s.log, s.workers[w], w) && EventOk(s.db, s.log, pc.e);
    OthersKeep(s, s.db, s.log, w, pc);
  }

  /** A worker that passes the gate, its charge included; only holders change. */
  lemma PassKeeps(s: State, w: nat, pc: Pc, charges: multiset<Charge>)
    requires Inv(s) && w < |s.workers| && BeforePass(s.workers[w]) && pc.Analyzing?
    requires pc.e == s.workers[w].e && pc.o == s.workers[w].o
    requires charges == multiset{} ||
             (!HolderOf(pc.o).Anonymous? && charges == multiset{Charge(pc.e, HolderOf(pc.o))})
    ensures Sound(s.db, s.workers[w := pc],
                  s.log.(passes := s.log.passes + multiset{pc.e}, charges := s.log.charges + charges))
  {
    var log := s.log.(passes := s.log.passes + multiset{pc.e}, charges := s.log.charges + charges);
    assert WorkerOk(s.db, s.log, s.workers[w], w) && EventOk(s.db, s.log, pc.e);
    forall a | a in s.db.analyses ensures s.db.analyses[a] != pc.e {}
    OthersKeep(s, s.db, log, w, pc);
  }

  lemma CalmKeeps(db: Db, db': Db, ws: seq<Pc>, log: Log)
    requires Sound(db, ws, log) && Calm(db, db') && Fresh(db')
    ensures Sound(db', ws, log)
  {
    forall i | 0 <= i < |ws| ensures WorkerOk(db', log, ws[i], i) { assert WorkerOk(db, log, ws[i], i); }
    forall x | x in db'.events ensures EventOk(db', log, x) { if x in db.events { assert EventOk(db, log, x); } }
  }

  lemma ClaimKeeps(c: Config, s: State, w: nat)
    requires Inv(s) && w < |s.workers| && s.workers[w].Fetched? && Claimable(s.db, s.workers[w].e)
    ensures Inv(WorkOn(c, s, w))
  {
    var t := WorkOn(c, s, w);
    assert WorkerOk(s.db, s.log, s.workers[w], w) && EventOk(s.db, s.log, s.workers[w].e);
    OthersKeep(s, t.db, t.log, w, t.workers[w]);
  }

  lemma EnterGateKeeps(c: Config, s: State, w: nat)
    requires Inv(s) && w < |s.workers| && s.workers[w].Claimed?
    ensures Inv(WorkOn(c, s, w))
  {
    MoveKeeps(s, w, WorkOn(c, s, w).workers[w]);
  }

  lemma GateKeeps(c: Config, s: State, w: nat)
    requires Inv(s) && w < |s.workers| && s.workers[w].AtGate?
    ensures Inv(WorkOn(c, s, w))
  {
    var t := ReadQuota(c, s, w);
    var pc := t.workers[w];
    if pc.Analyzing? {
      PassKeeps(s, w, pc, multiset{});
      assert t.log == s.log.(passes := t.log.passes, charges := s.log.charges + multiset{});
    } else {
      MoveKeeps(s, w, pc);
    }
  }

  lemma ResetKeeps(c: Config, s: State, w: nat)
    requires Inv(s) && w < |s.workers| && s.workers[w].AtReset?
    ensures Inv(WorkOn(c, s, w))
  {
    var t := WorkOn(c, s, w);
    assert WorkerOk(s.db, s.log, s.workers[w], w);
    MoveKeeps(s, w, t.workers[w]);
    CalmKeeps(s.db, t.db, t.workers, s.log);
  }

  lemma ChargeKeeps(c: Config, s: State, w: nat)
    requires Inv(s) && w < |s.workers| && s.workers[w].AtCharge?
    ensures Inv(WorkOn(c, s, w))
  {
    var t := WorkOn(c, s, w);
    var pc := t.workers[w];
    assert WorkerOk(s.db, s.log, s.workers[w], w);
    PassKeeps(s, w, pc, multiset{Charge(pc.e, HolderOf(pc.o))});
    CalmKeeps(s.db, t.db, t.workers, t.log);
  }

  lemma RefuseKeeps(c: Config, s: State, w: nat)
    requires Inv(s) && w < |s.workers| && s.workers[w].AtRefuse?
    ensures Inv(WorkOn(c, s, w))
  {
    var t := WorkOn(c, s, w);
    assert WorkerOk(s.db, s.log, s.workers[w], w) && EventOk(s.db, s.log, s.workers[w].e);
    OthersKeep(s, t.db, t.log, w, t.workers[w]);
  }

  lemma InsertedIsSound(s: State, w: nat, db: Db, pc: Pc)
    requires Inv(s) && w < |s.workers| && s.workers[w].Analyzing?
    requires db == InsertAnalysis(s.db, s.workers[w].e)
    requires pc == Inserted(s.workers[w].e, s.workers[w].o, s.workers[w].since, s.db.nextId)
    ensures Sound(db, s.workers[w := pc], s.log)
  {
    assert WorkerOk(s.db, s.log, s.workers[w], w) && EventOk(s.db, s.log, pc.e);
    OthersKeep(s, db, s.log, w, pc);
  }

  lemma InsertKeeps(c: Config, s: State, w: nat)
    requires Inv(s) && w < |s.workers| && s.workers[w].Analyzing?
    ensures Inv(WorkOn(c, s, w))
  {
    var t := WorkOn(c, s, w);
    InsertedIsSound(s, w, t.db, t.workers[w]);
    assert t.workers == s.workers[w := t.workers[w]] && t.log == s.log;
  }

  lemma StampKeeps(c: Config, s: State, w: nat)
    requires Inv(s) && w < |s.workers| && s.workers[w].Inserted?
    ensures Inv(WorkOn(c, s, w))
  {
    var t := WorkOn(c, s, w);
    assert WorkerOk(s.db, s.log, s.workers[w], w) && EventOk(s.db, s.log, s.workers[w].e);
    OthersKeep(s, t.db, t.log, w, t.workers[w]);
  }

  lemma LinkedIsSound(s: State, w: nat, db: Db, pc: Pc)
    requires Inv(s) && w < |s.workers| && s.workers[w].AtLink?
    requires db == Link(s.db, s.workers[w].e, s.workers[w].aid, s.workers[w].at)
    requires pc == Linked(s.workers[w].e, s.workers[w].o)
    ensures Sound(db, s.workers[w := pc], s.log)
  {
    assert WorkerOk(s.db, s.log, s.workers[w], w) && EventOk(s.db, s.log, pc.e);
    OthersKeep(s, db, s.log, w, pc);
  }

  lemma LinkKeeps(c: Config, s: State, w: nat)
    requires Inv(s) && w < |s.workers| && s.workers[w].AtLink?
    ensures Inv(WorkOn(c, s, w))
  {
    var t := WorkOn(c, s, w);
    LinkedIsSound(s, w, t.db, t.workers[w]);
    assert t.workers == s.workers[w := t.workers[w]] && t.log == s.log;
  }

  /** What a worker may become in a step that moves no claim. */
  ghost predicate Quiet(db: Db, old': Pc, new': Pc) {
    || new' == old'
    || new'.Idle?
    || (new'.Fetched? && new'.e in db.events && new'.o == db.events[new'.e].origin)
    || (new'.AtFail? && !old'.Idle? && new'.e == old'.e && new'.o == old'.o && (new'.held ==> Holding(old')))
  }

  lemma QuietWorkerKeeps(s: State, w: nat, pc: Pc)
    requires Inv(s) && w < |s.workers| && Quiet(s.db, s.workers[w], pc)
    ensures Inv(Goto(s, w, pc))
  {
    var ws := s.workers[w := pc];
    assert WorkerOk(s.db, s.log, s.workers[w], w);
    forall i | 0 <= i < |ws| ensures WorkerOk(s.db, s.log, ws[i], i) {
      assert WorkerOk(s.db, s.log, s.workers[i], i);
    }
  }

  lemma WorkKeeps(c: Config, s: State, w: nat)
    requires Inv(s) && w < |s.workers|
    ensures Inv(WorkOn(c, s, w))
  {
    match s.workers[w]
    case Idle =>
    case Fetched(e, _) => if Claimable(s.db, e) { ClaimKeeps(c, s, w); } else { QuietWorkerKeeps(s, w, Idle); }
    case Claimed(_, _) => EnterGateKeeps(c, s, w);
    case AtGate(_, _, _) => GateKeeps(c, s, w);
    case AtReset(_, _, _, _) => ResetKeeps(c, s, w);
    case AtCharge(_, _, _) => ChargeKeeps(c, s, w);
    case AtRefuse(_, _) => RefuseKeeps(c, s, w);
    case Analyzing(_, _, _) => InsertKeeps(c, s, w);
    case Inserted(_, _, _, _) => StampKeeps(c, s, w);
    case AtLink(_, _, _, _, _) => LinkKeeps(c, s, w);
    case Refused(_, _) => QuietWorkerKeeps(s, w, Idle);
    case Linked(_, _) => QuietWorkerKeeps(s, w, Idle);
    case AtFail(e, _, _, text) =>
      QuietWorkerKeeps(s, w, Idle);
      CalmKeeps(s.db, SetError(s.db, e, Failed(text)), s.workers[w := Idle], s.log);
  }

  lemma StepKeeps(c: Config, s: State, step: Step)
    requires Inv(s)
    ensures Inv(Apply(c, s, step))
  {
    match step
    case Work(w) => if w < |s.workers| { WorkKeeps(c, s, w); }
    case Take(w, e) =>
      if w < |s.workers| && e in s.db.events { QuietWorkerKeeps(s, w, Fetched(e, s.db.events[e].origin)); }
    case Raise(w, text) =>
      if w < |s.workers| && InTry(s.workers[w]) {
        QuietWorkerKeeps(s, w, AtFail(s.workers[w].e, s.workers[w].o, Holding(s.workers[w]), text));
      }
    case Crash(w) => if w < |s.workers| { QuietWorkerKeeps(s, w, Idle); }
    case _ =>
      OutsideStep(c, s, step);
      CalmKeeps(s.db, Apply(c, s, step).db, s.workers, s.log);
  }

  lemma InitHolds(s: State)
    requires Init(s)
    ensures Inv(s)
  {}

  lemma {:induction false} RunKeeps(c: Config, s: State, steps: seq<Step>)
    requires Inv(s)
    ensures Inv(Run(c, s, steps))
    decreases |steps|
  {
    if steps != [] {
      StepKeeps(c, s, steps[0]);
      RunKeeps(c, Apply(c, s, steps[0]), steps[1..]);
    }
  }

  function ReportsOf(db: Db, e: Id): set<Id> {
    set a | a in db.analyses && db.analyses[a] == e
  }

  lemma ReportsBounded(db: Db, ws: seq<Pc>, log: Log, e: Id)
    requires Sound(db, ws, log)
    ensures |ReportsOf(db, e)| <= log.passes[e] <= 1
  {
    if log.passes[e] > 0 { assert EventOk(db, log, e); }
    var r := ReportsOf(db, e);
    forall a, b | a in r && b in r ensures a == b {}
    if r != {} {
      var a :| a in r;
      assert r == {a};
    }
  }

  /** In every interleaving each mail passes the gate at most once, is charged at most once and only to the holder the
      quota rule picks, and gets at most one report. */
  lemma EachMailAtMostOnce(c: Config, s: State, steps: seq<Step>, e: Id, h: Holder)
    requires Init(s)
    ensures var t := Run(c, s, steps);
            && t.log.passes[e] <= 1
            && t.log.charges[Charge(e, h)] <= t.log.passes[e]
            && (Charge(e, h) in t.log.charges ==>
                  e in t.db.events && h == HolderOf(t.db.events[e].origin) && !h.Anonymous?)
            && |ReportsOf(t.db, e)| <= t.log.passes[e]
  {
    InitHolds(s);
    RunKeeps(c, s, steps);
    var t := Run(c, s, steps);
    ReportsBounded(t.db, t.workers, t.log, e);
  }
}

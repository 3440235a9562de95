/**
 The anonymous quota keeps no counter: usage is the number of finished analyses of an address today, so a report counts
 only once it is linked. Work in flight can therefore overrun the limit, again by at most the number of workers less
 one, on every UTC day and across midnight.
 */
module AnonymousBound {
  import opened Prelude
  import opened Calendar
  import opened Store
  import opened Protocol
  import opened Safety

  /** An anonymous mail with this IP; None stands for a mail without one. */
  predicate AnonymousFrom(o: Origin, ip: Option<string>) { HolderOf(o).Anonymous? && o.ip == ip }

  predicate DoneOn(ev: Event, ip: Option<string>, day: int) {
    && AnonymousFrom(ev.origin, ip)
    && ev.analysis.Some? && ev.analyzedAt.Some? && DayOf(ev.analyzedAt.value) == day
  }

  /** Anonymous analyses of the address finished on the day. */
  function Done(events: map<Id, Event>, ip: Option<string>, day: int): set<Id> {
    set e | e in events && DoneOn(events[e], ip, day)
  }

  /** Past the gate and not linked, and able to finish on the day: it entered the gate by then and, once its finishing
      time is read, that time is on the day. */
  predicate MayFinishOn(pc: Pc, ip: Option<string>, day: int) {
    match pc
    case Analyzing(_, o, since) => AnonymousFrom(o, ip) && DayOf(since) <= day
    case Inserted(_, o, since, _) => AnonymousFrom(o, ip) && DayOf(since) <= day
    case AtLink(_, o, _, _, at) => AnonymousFrom(o, ip) && DayOf(at) == day
    case _ => false
  }

  function InFlight(ws: seq<Pc>, ip: Option<string>, day: int): set<nat> {
    set w: nat | w < |ws| && MayFinishOn(ws[w], ip, day)
  }

  /** A mail finished today is in the usage its own gate reads if and only if it has an IP. */
  lemma FinishedMailCountsExactly(db: Db, e: Id, now: Instant)
    requires e in db.events && db.events[e].analysis.Some?
    requires db.events[e].analyzedAt.Some? && DayStart(now) <= db.events[e].analyzedAt.value
    ensures e in UsageSet(db, UsageIp(db.events[e].origin), now) <==> Truthy(db.events[e].origin.ip)
  {}

  /** Origins whose finished mails their own gate counts, or any origin when the gate grants nothing at all. */
  predicate Watched(c: Config, ip: Option<string>) { Truthy(ip) || c.anonLimit < 1 }

  ghost predicate DayBounded(c: Config, events: map<Id, Event>, ws: seq<Pc>, ip: Option<string>, day: int) {
    |Done(events, ip, day)| + |InFlight(ws, ip, day)| <= Ceiling(c.anonLimit, |ws|)
  }

  ghost predicate AnonInv(c: Config, events: map<Id, Event>, ws: seq<Pc>, clock: Instant) {
    && |ws| >= 1
    && NobodyAhead(ws, clock)
    && (forall ip, day {:trigger DayBounded(c, events, ws, ip, day)} ::
          Watched(c, ip) ==> DayBounded(c, events, ws, ip, day))
  }

  ghost predicate AnonHolds(c: Config, s: State) { AnonInv(c, s.db.events, s.workers, s.clock) }

  lemma InFlightMoves(ws: seq<Pc>, w: nat, pc: Pc, ip: Option<string>, day: int)
    requires w < |ws|
    ensures InFlight(ws[w := pc], ip, day)
         == (if MayFinishOn(pc, ip, day) then InFlight(ws, ip, day) + {w} else InFlight(ws, ip, day) - {w})
  {}

  /** A worker that moves without newly becoming able to finish on any day. */
  lemma MoveKeeps(c: Config, events: map<Id, Event>, ws: seq<Pc>, clock: Instant, w: nat, pc: Pc)
    requires AnonInv(c, events, ws, clock) && w < |ws| && NotFuture(pc, clock)
    requires forall ip, day :: MayFinishOn(pc, ip, day) ==> MayFinishOn(ws[w], ip, day)
    ensures AnonInv(c, events, ws[w := pc], clock)
  {
    var ws' := ws[w := pc];
    forall ip, day | Watched(c, ip) ensures DayBounded(c, events, ws', ip, day) {
      assert DayBounded(c, events, ws, ip, day);
      InFlightMoves(ws, w, pc, ip, day);
      SubsetCardinality(InFlight(ws', ip, day), InFlight(ws, ip, day));
    }
  }

  /** Everything an anonymous address finished today or later is in the usage the gate reads. */
  lemma UsageCovers(db: Db, ip: Option<string>, now: Instant, day: int)
    requires DayOf(now) <= day && Truthy(ip)
    ensures |Done(db.events, ip, day)| <= |UsageSet(db, ip.value, now)|
  {
    forall e | e in Done(db.events, ip, day) ensures e in UsageSet(db, ip.value, now) {
      DayStartOrder(now, db.events[e].analyzedAt.value);
    }
    SubsetCardinality(Done(db.events, ip, day), UsageSet(db, ip.value, now));
  }

  /** The anonymous gate grants: on its own day and later the finished ones are under the limit, earlier days are not
      touched. */
  lemma GrantKeeps(c: Config, s: State, w: nat, pc: Pc)
    requires AnonHolds(c, s) && w < |s.workers| && s.workers[w].AtGate? && pc.Analyzing?
    requires pc.since == s.workers[w].since && pc.o == s.workers[w].o
    requires HolderOf(pc.o).Anonymous? && AnonymousUsage(s.db, pc.o, pc.since) < c.anonLimit
    ensures AnonInv(c, s.db.events, s.workers[w := pc], s.clock)
  {
    var ws := s.workers[w := pc];
    assert NotFuture(s.workers[w], s.clock);
    forall ip, day | Watched(c, ip) ensures DayBounded(c, s.db.events, ws, ip, day) {
      assert DayBounded(c, s.db.events, s.workers, ip, day);
      InFlightMoves(s.workers, w, pc, ip, day);
      if MayFinishOn(pc, ip, day) {
        UsageCovers(s.db, ip, pc.since, day);
        SubsetCardinality(InFlight(ws, ip, day), Indices(|ws|));
      } else {
        SubsetCardinality(InFlight(ws, ip, day), InFlight(s.workers, ip, day));
      }
    }
  }

  /** A holder's charge puts no anonymous work in flight. */
  lemma HolderPassKeeps(c: Config, s: State, w: nat, pc: Pc)
    requires AnonHolds(c, s) && w < |s.workers| && NotFuture(pc, s.clock)
    requires pc.Analyzing? && !HolderOf(pc.o).Anonymous?
    ensures AnonInv(c, s.db.events, s.workers[w := pc], s.clock)
  {
    MoveKeeps(c, s.db.events, s.workers, s.clock, w, pc);
  }

  /** Reading the finishing time leaves the work in flight for that one day only. */
  lemma StampKeeps(c: Config, s: State, w: nat)
    requires AnonHolds(c, s) && w < |s.workers| && s.workers[w].Inserted?
    ensures AnonHolds(c, WorkOn(c, s, w))
  {
    assert NotFuture(s.workers[w], s.clock);
    DaysOrdered(s.workers[w].since, s.clock);
    MoveKeeps(c, s.db.events, s.workers, s.clock, w, WorkOn(c, s, w).workers[w]);
  }

  lemma LinkFinishes(events: map<Id, Event>, events': map<Id, Event>, pc: Pc, ip: Option<string>, day: int)
    requires pc.AtLink? && pc.e in events && events[pc.e].origin == pc.o && events[pc.e].analysis.None?
    requires events' == events[pc.e := events[pc.e].(analysis := Some(pc.aid), analyzedAt := Some(pc.at))]
    ensures Done(events', ip, day)
         == if MayFinishOn(pc, ip, day) then Done(events, ip, day) + {pc.e} else Done(events, ip, day)
    ensures pc.e !in Done(events, ip, day)
  {}

  /** Linking turns one analysis in flight into one finished on the same day. */
  lemma LinkBalances(c: Config, events: map<Id, Event>, events': map<Id, Event>, ws: seq<Pc>, w: nat, pc: Pc,
                     ip: Option<string>, day: int)
    requires w < |ws| && ws[w] == pc && pc.AtLink? && DayBounded(c, events, ws, ip, day)
    requires pc.e in events && events[pc.e].origin == pc.o && events[pc.e].analysis.None?
    requires events' == events[pc.e := events[pc.e].(analysis := Some(pc.aid), analyzedAt := Some(pc.at))]
    ensures DayBounded(c, events', ws[w := Linked(pc.e, pc.o)], ip, day)
  {
    InFlightMoves(ws, w, Linked(pc.e, pc.o), ip, day);
    LinkFinishes(events, events', pc, ip, day);
    if MayFinishOn(pc, ip, day) {
      assert w in InFlight(ws, ip, day);
    } else {
      SubsetCardinality(InFlight(ws, ip, day) - {w}, InFlight(ws, ip, day));
    }
  }

  lemma LinkKeeps(c: Config, s: State, w: nat)
    requires AnonHolds(c, s) && Inv(s) && w < |s.workers| && s.workers[w].AtLink?
    ensures AnonHolds(c, WorkOn(c, s, w))
  {
    var t := WorkOn(c, s, w);
    var pc := s.workers[w];
    assert WorkerOk(s.db, s.log, pc, w);
    forall ip, day | Watched(c, ip) ensures DayBounded(c, t.db.events, t.workers, ip, day) {
      assert DayBounded(c, s.db.events, s.workers, ip, day);
      LinkBalances(c, s.db.events, t.db.events, s.workers, w, pc, ip, day);
    }
  }

  /** Writes that change no link keep what is finished. */
  lemma DoneStable(events: map<Id, Event>, events': map<Id, Event>, ip: Option<string>, day: int)
    requires LinksStable(events, events')
    ensures Done(events', ip, day) == Done(events, ip, day)
  {}

  lemma EventsMoveKeeps(c: Config, s: State, t: State)
    requires AnonHolds(c, s)
    requires t.workers == s.workers && s.clock <= t.clock
    requires LinksStable(s.db.events, t.db.events)
    ensures AnonHolds(c, t)
  {
    forall ip, day | Watched(c, ip) ensures DayBounded(c, t.db.events, t.workers, ip, day) {
      assert DayBounded(c, s.db.events, s.workers, ip, day);
      DoneStable(s.db.events, t.db.events, ip, day);
    }
  }

  lemma OnlyLinkingLinks(c: Config, s: State, w: nat)
    requires w < |s.workers| && !s.workers[w].AtLink?
    ensures LinksStable(s.db.events, WorkOn(c, s, w).db.events)
  {
    if !WritesEvent(s.workers[w]) { OtherWorkLeavesEvents(c, s, w); }
  }

  /** The operations that neither grant nor read the finishing time nor link. */
  lemma OtherWorkKeeps(c: Config, s: State, w: nat)
    requires AnonHolds(c, s) && w < |s.workers|
    requires !s.workers[w].AtLink? && !s.workers[w].Inserted? && !WorkOn(c, s, w).workers[w].Analyzing?
    ensures AnonHolds(c, WorkOn(c, s, w))
  {
    var t := WorkOn(c, s, w);
    assert NotFuture(s.workers[w], s.clock);
    OnlyLinkingLinks(c, s, w);
    WorkIsLocal(c, s, w);
    EventsMoveKeeps(c, s, s.(db := t.db));
    MoveKeeps(c, t.db.events, s.workers, s.clock, w, t.workers[w]);
  }

  lemma WorkKeepsAnon(c: Config, s: State, w: nat)
    requires AnonHolds(c, s) && Inv(s) && w < |s.workers|
    ensures AnonHolds(c, WorkOn(c, s, w))
  {
    var t := WorkOn(c, s, w);
    var pc := s.workers[w];
    assert WorkerOk(s.db, s.log, pc, w) && NotFuture(pc, s.clock);
    if pc.AtLink? {
      LinkKeeps(c, s, w);
    } else if pc.Inserted? {
      StampKeeps(c, s, w);
    } else if pc.AtGate? && t.workers[w].Analyzing? {
      GrantKeeps(c, s, w, t.workers[w]);
    } else if pc.AtCharge? {
      HolderPassKeeps(c, s, w, t.workers[w]);
    } else {
      OtherWorkKeeps(c, s, w);
    }
  }

  lemma OutsideKeepsAnon(c: Config, s: State, step: Step)
    requires AnonHolds(c, s) && Inv(s) && !WorkerStep(step)
    ensures AnonHolds(c, Apply(c, s, step))
  {
    OutsideStep(c, s, step);
    EventsMoveKeeps(c, s, Apply(c, s, step));
  }

  lemma StepKeepsAnon(c: Config, s: State, step: Step)
    requires AnonHolds(c, s) && Inv(s)
    ensures AnonHolds(c, Apply(c, s, step))
  {
    match step
    case Work(w) => if w < |s.workers| { WorkKeepsAnon(c, s, w); }
    case Take(w, e) =>
      if w < |s.workers| && e in s.db.events {
        MoveKeeps(c, s.db.events, s.workers, s.clock, w, Fetched(e, s.db.events[e].origin));
      }
    case Raise(w, text) =>
      if w < |s.workers| && InTry(s.workers[w]) {
        var pc := s.workers[w];
        MoveKeeps(c, s.db.events, s.workers, s.clock, w, AtFail(pc.e, pc.o, Holding(pc), text));
      }
    case Crash(w) => if w < |s.workers| { MoveKeeps(c, s.db.events, s.workers, s.clock, w, Idle); }
    case _ => OutsideKeepsAnon(c, s, step);
  }

  lemma {:induction false} RunKeepsAnon(c: Config, s: State, steps: seq<Step>)
    requires AnonHolds(c, s) && Inv(s)
    ensures AnonHolds(c, Run(c, s, steps))
    decreases |steps|
  {
    if steps != [] {
      StepKeepsAnon(c, s, steps[0]);
      StepKeeps(c, s, steps[0]);
      RunKeepsAnon(c, Apply(c, s, steps[0]), steps[1..]);
    }
  }

  lemma InitBounded(c: Config, s: State)
    requires Init(s)
    ensures AnonHolds(c, s)
  {
    forall i, d ensures DayBounded(c, s.db.events, s.workers, i, d) {
      assert Done(s.db.events, i, d) == {} && InFlight(s.workers, i, d) == {};
    }
  }

  /** For every address and UTC day: finished anonymous analyses plus those that may still finish that day. */
  lemma AnonymousDayBounded(c: Config, s: State, steps: seq<Step>, ip: Option<string>, day: int)
    requires Init(s) && Watched(c, ip)
    ensures var t := Run(c, s, steps);
            |Done(t.db.events, ip, day)| + |InFlight(t.workers, ip, day)| <= Ceiling(c.anonLimit, |s.workers|)
  {
    InitHolds(s);
    InitBounded(c, s);
    RunKeepsAnon(c, s, steps);
    WorkersConstant(c, s, steps);
    var t := Run(c, s, steps);
    assert DayBounded(c, t.db.events, t.workers, ip, day);
  }
}

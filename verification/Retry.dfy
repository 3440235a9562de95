/**
 Which unclaimed mails can still be tried. A task for a mail comes from its arrival or from a /check that finds it, and
 /check only ever finds the newest mail of an address. So a refused mail whose address has had another one since, and
 that nobody is on the way to, is never tried again, however free the quota is.
 */
module Retry {
  import opened Prelude
  import opened Calendar
  import opened Quotas
  import opened Store
  import opened Protocol
  import opened Safety
  import opened QuotaBounds

  ghost predicate HasNewer(events: map<Id, Event>, e: Id)
    requires e in events
  {
    exists x :: x in events && x > e && events[x].to == events[e].to
  }

  lemma NewerStays(events: map<Id, Event>, events': map<Id, Event>, e: Id)
    requires e in events && events.Keys <= events'.Keys
    requires forall x :: x in events ==> events'[x].to == events[x].to
    ensures HasNewer(events, e) ==> HasNewer(events', e)
    ensures events'.Keys == events.Keys ==> (HasNewer(events, e) <==> HasNewer(events', e))
  {
    if HasNewer(events, e) {
      var x :| x in events && x > e && events[x].to == events[e].to;
      assert x in events' && events'[x].to == events'[e].to;
    }
  }

  predicate Taken(pc: Pc, e: Id) { pc.Fetched? && pc.e == e }

  predicate WillQueue(k: CheckPc, e: Id) { k.e == e && !k.started }

  /** A task for e is queued or about to be, or a worker is about to claim it. */
  ghost predicate OnItsWay(s: State, e: Id) {
    || e in s.queue || e in s.senders
    || (exists k :: k in s.checks && WillQueue(k, e))
    || (exists w: nat :: w < |s.workers| && Taken(s.workers[w], e))
  }

  ghost predicate UnderCheck(s: State, e: Id) { exists k :: k in s.checks && k.e == e }

  ghost predicate Unclaimed(s: State, e: Id) { e in s.db.events && s.db.events[e].started.None? }

  /** On its way; or the newest of its address, with no exception text or with a /check under way that will erase it. */
  ghost predicate Open(s: State, e: Id)
    requires e in s.db.events
  {
    OnItsWay(s, e) || (!HasNewer(s.db.events, e) && (!s.db.events[e].error.Failed? || UnderCheck(s, e)))
  }

  ghost predicate Closed(s: State, e: Id) { Unclaimed(s, e) && !Open(s, e) }

  // ----- A closed mail stays closed -----

  lemma FoundHasNoNewer(db: Db, to: string, after: Cursor, e: Id)
    requires Fresh(db) && Newest(db.events, to, after, false, db.nextId) == Some(e)
    ensures !HasNewer(db.events, e)
  {
    forall x: Id | x in db.events && x > e && db.events[x].to == db.events[e].to ensures false {
      assert Matches(x, db.events[x], to, after, false);
    }
  }

  /** A worker that holds nothing on e neither claims it nor passes the gate with it. */
  lemma ClosedWork(c: Config, s: State, w: nat, e: Id)
    requires w < |s.workers| && Unclaimed(s, e)
    requires var pc := s.workers[w]; pc.Idle? || pc.e != e || pc.Refused? || pc.Linked? || pc.AtFail?
    ensures var t := WorkOn(c, s, w);
            && t.queue == s.queue && t.senders == s.senders && t.checks == s.checks
            && t.log.passes[e] == s.log.passes[e] && Unclaimed(t, e) && !Taken(t.workers[w], e)
            && (t.db.events[e] == s.db.events[e] || t.db.events[e].error.Failed?)
  {
    WorkLeavesCallers(c, s, w);
    ClosedEvent(c, s, w, e);
  }

  lemma ClosedEvent(c: Config, s: State, w: nat, e: Id)
    requires w < |s.workers| && Unclaimed(s, e)
    requires var pc := s.workers[w]; pc.Idle? || pc.e != e || pc.Refused? || pc.Linked? || pc.AtFail?
    ensures var t := WorkOn(c, s, w);
            Unclaimed(t, e) && (t.db.events[e] == s.db.events[e] || t.db.events[e].error.Failed?)
  {
    if !WritesEvent(s.workers[w]) { OtherWorkLeavesEvents(c, s, w); }
  }

  lemma WorkLeavesCallers(c: Config, s: State, w: nat)
    requires w < |s.workers|
    ensures var t := WorkOn(c, s, w);
            t.queue == s.queue && t.senders == s.senders && t.checks == s.checks && t.clock == s.clock
  {}

  lemma NobodyHolds(s: State, w: nat, e: Id)
    requires Inv(s) && w < |s.workers| && Unclaimed(s, e) && !Taken(s.workers[w], e)
    ensures var pc := s.workers[w]; pc.Idle? || pc.e != e || pc.Refused? || pc.Linked? || pc.AtFail?
  {
    assert WorkerOk(s.db, s.log, s.workers[w], w);
  }

  lemma WorkKeepsAddresses(c: Config, s: State, w: nat, e: Id)
    requires w < |s.workers| && e in s.db.events
    ensures var events := WorkOn(c, s, w).db.events;
            && events.Keys == s.db.events.Keys
            && (forall x :: x in events ==> events[x].to == s.db.events[x].to)
  {
    if !WritesEvent(s.workers[w]) { OtherWorkLeavesEvents(c, s, w); }
  }

  lemma WorkKeepsClosed(c: Config, s: State, w: nat, e: Id)
    requires Inv(s) && Closed(s, e) && w < |s.workers|
    ensures Closed(WorkOn(c, s, w), e) && WorkOn(c, s, w).log.passes[e] == s.log.passes[e]
  {
    var t := WorkOn(c, s, w);
    NobodyHolds(s, w, e);
    ClosedWork(c, s, w, e);
    WorkKeepsAddresses(c, s, w, e);
    WorkIsLocal(c, s, w);
    forall v: nat | v < |t.workers| ensures !Taken(t.workers[v], e) {
      if v != w { assert t.workers[v] == s.workers[v]; }
    }
    NewerStays(s.db.events, t.db.events, e);
  }

  /** Taking another mail, raising and dying. */
  lemma LeaveKeepsClosed(c: Config, s: State, step: Step, e: Id)
    requires Closed(s, e) && (step.Take? || step.Raise? || step.Crash?)
    ensures Closed(Apply(c, s, step), e) && Apply(c, s, step).log == s.log
  {
    var t := Apply(c, s, step);
    forall v: nat | v < |t.workers| ensures !Taken(t.workers[v], e) {
      if t.workers[v] == s.workers[v] { assert !Taken(s.workers[v], e); }
    }
  }

  lemma MailKeepsClosed(c: Config, s: State, to: string, o: Origin, e: Id)
    requires Inv(s) && Closed(s, e)
    ensures var t := Apply(c, s, StoreMail(to, o)); Closed(t, e) && t.log == s.log
  {
    var t := Apply(c, s, StoreMail(to, o));
    NewerStays(s.db.events, t.db.events, e);
    assert t.workers == s.workers && t.checks == s.checks && t.queue == s.queue;
  }

  lemma AccountKeepsClosed(c: Config, s: State, h: Holder, q: Quota, e: Id)
    requires Closed(s, e)
    ensures var t := Apply(c, s, Register(h, q)); Closed(t, e) && t.log == s.log
  {
    var t := Apply(c, s, Register(h, q));
    assert t == s.(db := t.db) && t.db.events == s.db.events;
  }

  /** A /check finds a closed mail only to show its exception text. */
  lemma CheckMissesClosed(c: Config, s: State, to: string, after: Cursor, live: bool, e: Id)
    requires Inv(s) && Closed(s, e)
    ensures var r := Check(c, s.db, to, after, live, s.clock);
            && r.enqueue != Some(e) && r.db.events.Keys == s.db.events.Keys
            && (forall x :: x in s.db.events ==> r.db.events[x].to == s.db.events[x].to)
            && r.db.events[e] == s.db.events[e]
  {
    var found := Newest(s.db.events, to, after, false, s.db.nextId);
    if found == Some(e) {
      FoundHasNoNewer(s.db, to, after, e);
      assert s.db.events[e].error.Failed?;
    }
  }

  lemma FindMissesClosed(s: State, to: string, after: Cursor, e: Id)
    requires Inv(s) && Closed(s, e)
    ensures var t := FindForCheck(s, to, after);
            && t == s.(checks := t.checks, senders := t.senders) && e !in t.senders
            && (forall k :: k in t.checks && k.e == e ==> k in s.checks)
  {
    var found := Newest(s.db.events, to, after, false, s.db.nextId);
    if found == Some(e) { FoundHasNoNewer(s.db, to, after, e); }
  }

  lemma FindKeepsClosed(s: State, to: string, after: Cursor, e: Id)
    requires Inv(s) && Closed(s, e)
    ensures Closed(FindForCheck(s, to, after), e) && FindForCheck(s, to, after).log == s.log
  {
    FindMissesClosed(s, to, after, e);
  }

  lemma CheckKeepsClosed(c: Config, s: State, to: string, after: Cursor, live: bool, e: Id)
    requires Inv(s) && Closed(s, e)
    ensures var t := Apply(c, s, CheckWhole(to, after, live)); Closed(t, e) && t.log == s.log
  {
    var t := Apply(c, s, CheckWhole(to, after, live));
    CheckMissesClosed(c, s, to, after, live, e);
    NewerStays(s.db.events, t.db.events, e);
    assert t.workers == s.workers && t.checks == s.checks && t.senders == s.senders;
  }

  /** Passing on a task, or losing one, and the clock. */
  lemma QueueKeepsClosed(c: Config, s: State, step: Step, e: Id)
    requires Closed(s, e) && (step.Tick? || step.Send? || step.LoseSend? || step.Duplicate?)
    ensures Closed(Apply(c, s, step), e) && Apply(c, s, step).log == s.log
  {
    var t := Apply(c, s, step);
    assert t == s.(clock := t.clock, senders := t.senders, queue := t.queue);
  }

  /** A /check under way goes on, clears or stops; it stays one that found its mail started, or not. */
  lemma CallerKeepsClosed(c: Config, s: State, step: Step, e: Id)
    requires Closed(s, e) && (step.CheckQuota? || step.CheckClear? || step.CheckStop?)
    ensures Closed(Apply(c, s, step), e) && Apply(c, s, step).log == s.log
  {
    var t := Apply(c, s, step);
    CallersHoldNoMore(c, s, step, e);
    NewerStays(s.db.events, t.db.events, e);
    assert t.workers == s.workers && t.queue == s.queue;
  }

  lemma CallersHoldNoMore(c: Config, s: State, step: Step, e: Id)
    requires Closed(s, e) && (step.CheckQuota? || step.CheckClear? || step.CheckStop?)
    ensures var t := Apply(c, s, step);
            && e !in t.senders && (UnderCheck(t, e) ==> UnderCheck(s, e))
            && (forall k :: k in t.checks ==> !WillQueue(k, e))
  {
    var t := Apply(c, s, step);
    var check := step.check;
    assert !WillQueue(check, e) || check !in s.checks;
    forall k | k in t.checks && k.e == e ensures UnderCheck(s, e) && !WillQueue(k, e) {
      if k !in s.checks { assert check in s.checks && check.e == e && check.started == k.started; }
    }
  }

  lemma StepKeepsClosed(c: Config, s: State, step: Step, e: Id)
    requires Inv(s) && Closed(s, e)
    ensures Closed(Apply(c, s, step), e) && Apply(c, s, step).log.passes[e] == s.log.passes[e]
  {
    match step
    case Work(w) => if w < |s.workers| { WorkKeepsClosed(c, s, w, e); }
    case Take(_, _) => LeaveKeepsClosed(c, s, step, e);
    case Raise(_, _) => LeaveKeepsClosed(c, s, step, e);
    case Crash(_) => LeaveKeepsClosed(c, s, step, e);
    case StoreMail(to, o) => MailKeepsClosed(c, s, to, o, e);
    case Register(h, q) => AccountKeepsClosed(c, s, h, q, e);
    case CheckWhole(to, after, live) => CheckKeepsClosed(c, s, to, after, live, e);
    case CheckFind(to, after) => FindKeepsClosed(s, to, after, e);
    case CheckQuota(_) => CallerKeepsClosed(c, s, step, e);
    case CheckClear(_) => CallerKeepsClosed(c, s, step, e);
    case CheckStop(_) => CallerKeepsClosed(c, s, step, e);
    case _ => QueueKeepsClosed(c, s, step, e);
  }

  /** A closed mail is never tried again: in no run, with no quota and at no time, does it pass the gate. */
  lemma {:induction false} NeverTriedAgain(c: Config, s: State, steps: seq<Step>, e: Id)
    requires Inv(s) && Closed(s, e)
    ensures Closed(Run(c, s, steps), e) && Run(c, s, steps).log.passes[e] == s.log.passes[e]
    decreases |steps|
  {
    if steps != [] {
      StepKeepsClosed(c, s, steps[0], e);
      StepKeeps(c, s, steps[0]);
      NeverTriedAgain(c, Apply(c, s, steps[0]), steps[1..], e);
    }
  }
}

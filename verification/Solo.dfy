/** One worker alone: the step program of the protocol computes exactly the sequential task, and a retried refusal ends
    in a report. */
module Solo {
  import opened Prelude
  import opened Calendar
  import opened Quotas
  import opened Store
  import opened Protocol
  import opened Safety

  function Iterate<T>(f: T -> T, x: T, n: nat): T
    decreases n
  {
    if n == 0 then x else Iterate(f, f(x), n - 1)
  }

  lemma {:induction false} IterateAdd<T>(f: T -> T, x: T, m: nat, n: nat)
    ensures Iterate(f, x, m + n) == Iterate(f, Iterate(f, x, m), n)
    decreases m
  {
    if m > 0 { IterateAdd(f, f(x), m - 1, n); }
  }

  /** n steps of worker w. */
  function Works(c: Config, s: State, w: nat, n: nat): State { Iterate((x: State) => Apply(c, x, Work(w)), s, n) }

  lemma WorksAdd(c: Config, s: State, w: nat, m: nat, n: nat)
    ensures Works(c, s, w, m + n) == Works(c, Works(c, s, w, m), w, n)
  {
    IterateAdd((x: State) => Apply(c, x, Work(w)), s, m, n);
  }

  lemma {:induction false} IdleWorks(c: Config, s: State, w: nat, n: nat)
    requires w < |s.workers| && s.workers[w].Idle?
    ensures Works(c, s, w, n) == s
    decreases n
  {
    if n > 0 { IdleWorks(c, s, w, n - 1); }
  }

  /** Take a queued mail and carry on for as long as any task takes; an idle worker does nothing. */
  function SoloSteps(w: nat, e: Id): seq<Step> { [Take(w, e)] + seq(9, i => Work(w)) }

  lemma {:induction false} RunWorks(c: Config, s: State, w: nat, steps: seq<Step>)
    requires forall i :: 0 <= i < |steps| ==> steps[i] == Work(w)
    ensures Run(c, s, steps) == Works(c, s, w, |steps|)
    decreases |steps|
  {
    if steps != [] { RunWorks(c, Apply(c, s, steps[0]), w, steps[1..]); }
  }

  /** How many operations the gate takes from its first read. */
  function GateWorks(c: Config, db: Db, o: Origin, since: Instant): nat {
    var h := HolderOf(o);
    var r := RecordOf(db, h);
    var limit := LimitOf(r, DefaultLimit(c, h));
    if h.Anonymous? then 1
    else if Expired(r, since) then (if 0 >= limit then 2 else 3)
    else if UsedOf(r) >= limit then 1 else 2
  }

  /** Same db, same worker, same record of passes: all the later steps and the results below depend on. */
  ghost predicate Stands(t: State, w: nat, pc: Pc, db: Db, passes: multiset<Id>) {
    w < |t.workers| && t.workers[w] == pc && t.db == db && t.log.passes == passes
  }

  lemma ChargeStage(c: Config, s: State, w: nat, e: Id, o: Origin, since: Instant)
    requires w < |s.workers| && s.workers[w] == AtCharge(e, o, since)
    ensures var h := HolderOf(o);
            && Stands(Apply(c, s, Work(w)), w, Analyzing(e, o, since),
                      UpdateHolder(s.db, h, WriteCharge(RecordOf(s.db, h))), s.log.passes + multiset{e})
            && Apply(c, s, Work(w)).clock == s.clock
  {}

  lemma ResetStage(c: Config, s: State, w: nat, e: Id, o: Origin, since: Instant, limit: int)
    requires w < |s.workers| && s.workers[w] == AtReset(e, o, since, limit)
    ensures var h := HolderOf(o);
            && Stands(Apply(c, s, Work(w)), w, if 0 >= limit then AtRefuse(e, o) else AtCharge(e, o, since),
                      UpdateHolder(s.db, h, WriteReset(RecordOf(s.db, h), since)), s.log.passes)
            && Apply(c, s, Work(w)).clock == s.clock
  {}

  lemma UpdateTwice(db: Db, h: Holder, a: Quota, b: Quota)
    ensures UpdateHolder(UpdateHolder(db, h, Some(a)), h, Some(b)) == UpdateHolder(db, h, Some(b))
  {
    if h in db.holders {
      assert db.holders[h := a][h := b] == db.holders[h := b];
    }
  }

  /** From the first read of the quota to the verdict, alone: the three operations compute the sequential gate. */
  lemma GateStage(c: Config, s: State, w: nat, e: Id, o: Origin, since: Instant)
    requires w < |s.workers| && s.workers[w] == AtGate(e, o, since)
    ensures var g := ConsumeQuota(c, s.db, o, since);
            && Stands(Works(c, s, w, GateWorks(c, s.db, o, since)), w,
                      if g.granted then Analyzing(e, o, since) else AtRefuse(e, o),
                      g.db, if g.granted then s.log.passes + multiset{e} else s.log.passes)
            && Works(c, s, w, GateWorks(c, s.db, o, since)).clock == s.clock
  {
    var h := HolderOf(o);
    var r := RecordOf(s.db, h);
    var limit := LimitOf(r, DefaultLimit(c, h));
    var s1 := Apply(c, s, Work(w));
    var n := GateWorks(c, s.db, o, since);
    assert Works(c, s, w, n) == Works(c, s1, w, n - 1);
    if !h.Anonymous? {
      if Expired(r, since) {
        ResetStage(c, s1, w, e, o, since, limit);
        var s2 := Apply(c, s1, Work(w));
        assert Works(c, s1, w, n - 1) == Works(c, s2, w, n - 2);
        if limit > 0 {
          ChargeStage(c, s2, w, e, o, since);
          assert Works(c, s2, w, 1) == Works(c, Apply(c, s2, Work(w)), w, 0);
          if r.Some? {
            var reset := WriteReset(r, since).value;
            UpdateTwice(s.db, h, reset, WriteCharge(Some(reset)).value);
          }
        }
      } else if UsedOf(r) < limit {
        ChargeStage(c, s1, w, e, o, since);
        assert Works(c, s1, w, 1) == Works(c, Apply(c, s1, Work(w)), w, 0);
      }
    }
  }

  lemma InsertStage(c: Config, s: State, w: nat, e: Id, o: Origin, since: Instant)
    requires w < |s.workers| && s.workers[w] == Analyzing(e, o, since)
    ensures Stands(Works(c, s, w, 2), w, AtLink(e, o, since, s.db.nextId, s.clock), InsertAnalysis(s.db, e),
                   s.log.passes)
  {
    var s1 := Apply(c, s, Work(w));
    assert Works(c, s, w, 2) == Works(c, s1, w, 1) == Works(c, Apply(c, s1, Work(w)), w, 0);
    assert s1.workers[w] == Inserted(e, o, since, s.db.nextId) && s1.db == InsertAnalysis(s.db, e);
  }

  lemma LinkStage(c: Config, s: State, w: nat, e: Id, o: Origin, since: Instant, aid: Id, at: Instant)
    requires w < |s.workers| && s.workers[w] == AtLink(e, o, since, aid, at)
    ensures Stands(Works(c, s, w, 2), w, Idle, Link(s.db, e, aid, at), s.log.passes)
  {
    var s1 := Apply(c, s, Work(w));
    assert Works(c, s, w, 2) == Works(c, s1, w, 1) == Works(c, Apply(c, s1, Work(w)), w, 0);
    assert s1.workers[w] == Linked(e, o) && s1.db == Link(s.db, e, aid, at);
  }

  /** From the verdict to the end of the attempt. */
  lemma ReportStage(c: Config, s: State, w: nat, e: Id, o: Origin, since: Instant)
    requires w < |s.workers| && s.workers[w] == Analyzing(e, o, since)
    ensures Stands(Works(c, s, w, 4), w, Idle, Link(InsertAnalysis(s.db, e), e, s.db.nextId, s.clock), s.log.passes)
  {
    InsertStage(c, s, w, e, o, since);
    LinkStage(c, Works(c, s, w, 2), w, e, o, since, s.db.nextId, s.clock);
    WorksAdd(c, s, w, 2, 2);
  }

  lemma RefusalStage(c: Config, s: State, w: nat, e: Id, o: Origin)
    requires w < |s.workers| && s.workers[w] == AtRefuse(e, o)
    ensures Stands(Works(c, s, w, 2), w, Idle, Release(s.db, e), s.log.passes)
  {
    var s1 := Apply(c, s, Work(w));
    assert Works(c, s, w, 2) == Works(c, s1, w, 1) == Works(c, Apply(c, s1, Work(w)), w, 0);
    assert s1.workers[w] == Refused(e, o) && s1.db == Release(s.db, e);
  }

  lemma ClaimStage(c: Config, s: State, w: nat, e: Id, o: Origin)
    requires w < |s.workers| && s.workers[w] == Fetched(e, o) && Claimable(s.db, e)
    ensures Stands(Works(c, s, w, 2), w, AtGate(e, o, s.clock), Claim(s.db, e, s.clock), s.log.passes)
    ensures Works(c, s, w, 2).clock == s.clock
  {
    var s1 := Apply(c, s, Work(w));
    assert Works(c, s, w, 2) == Works(c, s1, w, 1) == Works(c, Apply(c, s1, Work(w)), w, 0);
    assert s1.workers[w] == Claimed(e, o);
  }

  /** Whether the gate opens for e when its task runs alone now. */
  predicate Passes(c: Config, db: Db, e: Id, now: Instant) {
    Claimable(db, e) && ConsumeQuota(c, Claim(db, e, now), db.events[e].origin, now).granted
  }

  lemma ClaimedWorks(c: Config, s: State, w: nat, e: Id, o: Origin)
    requires w < |s.workers| && s.workers[w] == Fetched(e, o) && Claimable(s.db, e) && o == s.db.events[e].origin
    ensures Stands(Works(c, s, w, 9), w, Idle, AnalyzeMail(c, s.db, e, AtOnce(s.clock), None),
                   if Passes(c, s.db, e, s.clock) then s.log.passes + multiset{e} else s.log.passes)
  {
    ClaimStage(c, s, w, e, o);
    var s2 := Works(c, s, w, 2);
    var g := GateWorks(c, s2.db, o, s.clock);
    GateStage(c, s2, w, e, o, s.clock);
    var s3 := Works(c, s2, w, g);
    var last := if Passes(c, s.db, e, s.clock) then 4 else 2;
    if Passes(c, s.db, e, s.clock) {
      ReportStage(c, s3, w, e, o, s.clock);
    } else {
      RefusalStage(c, s3, w, e, o);
    }
    var s4 := Works(c, s3, w, last);
    IdleWorks(c, s4, w, 9 - 2 - g - last);
    WorksAdd(c, s3, w, last, 9 - 2 - g - last);
    WorksAdd(c, s2, w, g, 9 - 2 - g);
    WorksAdd(c, s, w, 2, 7);
  }

  /** The step program of a worker left alone is the sequential task. */
  lemma SoloRunIsAnalyzeMail(c: Config, s: State, w: nat, e: Id)
    requires w < |s.workers| && s.workers[w].Idle? && e in s.queue
    ensures Stands(Run(c, s, SoloSteps(w, e)), w, Idle, AnalyzeMail(c, s.db, e, AtOnce(s.clock), None),
                   if Passes(c, s.db, e, s.clock) then s.log.passes + multiset{e} else s.log.passes)
  {
    var t := Apply(c, s, Take(w, e));
    var rest := SoloSteps(w, e)[1..];
    RunWorks(c, t, w, rest);
    assert Run(c, s, SoloSteps(w, e)) == Works(c, t, w, 9);
    if Claimable(s.db, e) {
      ClaimedWorks(c, t, w, e, s.db.events[e].origin);
    } else {
      var t1 := Apply(c, t, Work(w));
      assert Works(c, t, w, 9) == Works(c, t1, w, 8);
      IdleWorks(c, t1, w, 8);
    }
  }

  /** The newest mail of the address, unclaimed, with no report and no error to show. */
  predicate Retriable(s: State, to: string, after: Cursor, e: Id) {
    && !after.Malformed? && Newest(s.db.events, to, after, false, s.db.nextId) == Some(e)
    && s.db.events[e].analysis.None? && s.db.events[e].started.None? && !s.db.events[e].error.Failed?
  }

  lemma CheckQueues(c: Config, s: State, to: string, after: Cursor, live: bool, e: Id)
    requires Retriable(s, to, after, e)
    requires QuotaState(c, s.db, s.db.events[e].origin, s.clock).remaining > 0
    ensures var t := Apply(c, s, CheckWhole(to, after, live));
            && e in t.queue && t.db == SetError(s.db, e, NoError)
            && t.workers == s.workers && t.clock == s.clock && t.log == s.log
            && Passes(c, t.db, e, t.clock)
  {
    var o := s.db.events[e].origin;
    var t := Apply(c, s, CheckWhole(to, after, live));
    assert s.db.events[e := s.db.events[e].(error := NoError)] == t.db.events;
    UsageStable(s.db, Claim(t.db, e, s.clock), UsageIp(o), s.clock);
    QuotaStateAnnouncesGate(c, s.db, o, s.clock);
  }

  /** A waiting or refused mail with quota free: /check clears and queues it, and the next worker, left alone, passes
      the gate and ends with a report linked. */
  lemma RetriedMailIsReported(c: Config, s: State, to: string, after: Cursor, live: bool, e: Id, w: nat)
    requires Retriable(s, to, after, e)
    requires QuotaState(c, s.db, s.db.events[e].origin, s.clock).remaining > 0
    requires w < |s.workers| && s.workers[w].Idle?
    ensures var queued := Apply(c, s, CheckWhole(to, after, live));
            var t := Run(c, queued, SoloSteps(w, e));
            && e in queued.queue
            && t.log.passes[e] == s.log.passes[e] + 1
            && e in t.db.events && t.db.events[e].analysis == Some(s.db.nextId)
            && s.db.nextId in t.db.analyses && t.db.analyses[s.db.nextId] == e
  {
    CheckQueues(c, s, to, after, live, e);
    SoloRunIsAnalyzeMail(c, Apply(c, s, CheckWhole(to, after, live)), w, e);
  }

  // ----- An attempt that raises -----

  /** Take the mail, pass the gate, raise, and write the exception text. */
  function FailingSteps(c: Config, s: State, w: nat, e: Id, text: string): seq<Step>
    requires Claimable(s.db, e)
  {
    var g := GateWorks(c, Claim(s.db, e, s.clock), s.db.events[e].origin, s.clock);
    [Take(w, e)] + seq(2 + g, i => Work(w)) + [Raise(w, text), Work(w)]
  }

  lemma FailStage(c: Config, s: State, w: nat, text: string)
    requires w < |s.workers| && InTry(s.workers[w])
    ensures Stands(Run(c, s, [Raise(w, text), Work(w)]), w, Idle, SetError(s.db, s.workers[w].e, Failed(text)),
                   s.log.passes)
  {
    var steps := [Raise(w, text), Work(w)];
    var s1 := Apply(c, s, Raise(w, text));
    assert s1.workers[w] == AtFail(s.workers[w].e, s.workers[w].o, Holding(s.workers[w]), text);
    var s2 := Apply(c, s1, Work(w));
    assert Run(c, s, steps) == Run(c, s1, steps[1..]);
    assert Run(c, s1, steps[1..]) == Run(c, s2, []);
  }

  /** From the taken mail to the end of the gate. */
  lemma PassStage(c: Config, s: State, w: nat, e: Id, o: Origin)
    requires w < |s.workers| && s.workers[w] == Fetched(e, o) && Claimable(s.db, e)
    ensures var claimed := Claim(s.db, e, s.clock);
            var gate := ConsumeQuota(c, claimed, o, s.clock);
            Stands(Works(c, s, w, 2 + GateWorks(c, claimed, o, s.clock)), w,
                   if gate.granted then Analyzing(e, o, s.clock) else AtRefuse(e, o), gate.db,
                   if gate.granted then s.log.passes + multiset{e} else s.log.passes)
  {
    ClaimStage(c, s, w, e, o);
    var s2 := Works(c, s, w, 2);
    var g := GateWorks(c, s2.db, o, s.clock);
    GateStage(c, s2, w, e, o, s.clock);
    WorksAdd(c, s, w, 2, g);
  }

  lemma FailingRunSplits(c: Config, s: State, w: nat, e: Id, text: string)
    requires Claimable(s.db, e)
    ensures var n := 2 + GateWorks(c, Claim(s.db, e, s.clock), s.db.events[e].origin, s.clock);
            Run(c, s, FailingSteps(c, s, w, e, text))
            == Run(c, Works(c, Apply(c, s, Take(w, e)), w, n), [Raise(w, text), Work(w)])
  {
    var t := Apply(c, s, Take(w, e));
    var works := seq(2 + GateWorks(c, Claim(s.db, e, s.clock), s.db.events[e].origin, s.clock), i => Work(w));
    RunSplits(c, s, [Take(w, e)] + works, [Raise(w, text), Work(w)]);
    RunSplits(c, s, [Take(w, e)], works);
    assert Run(c, s, [Take(w, e)]) == Run(c, t, []);
    RunWorks(c, t, w, works);
  }

  /** A worker that passes the gate and then raises computes the failing sequential task. */
  lemma FailingRunIsAnalyzeMail(c: Config, s: State, w: nat, e: Id, text: string)
    requires w < |s.workers| && s.workers[w].Idle? && e in s.queue && Passes(c, s.db, e, s.clock)
    ensures Stands(Run(c, s, FailingSteps(c, s, w, e, text)), w, Idle,
                   AnalyzeMail(c, s.db, e, AtOnce(s.clock), Some(text)), s.log.passes + multiset{e})
  {
    var o := s.db.events[e].origin;
    var t := Apply(c, s, Take(w, e));
    FailingRunSplits(c, s, w, e, text);
    PassStage(c, t, w, e, o);
    FailStage(c, Works(c, t, w, 2 + GateWorks(c, Claim(s.db, e, s.clock), o, s.clock)), w, text);
  }

  /** Writing the error of e does not change which mail of the address is newest. */
  lemma StillNewest(db: Db, db': Db, to: string, after: Cursor, e: Id)
    requires Newest(db.events, to, after, false, db.nextId) == Some(e) && db'.nextId == db.nextId
    requires db'.events.Keys == db.events.Keys
    requires forall x: Id :: x in db.events ==> db'.events[x].to == db.events[x].to
    ensures Newest(db'.events, to, after, false, db'.nextId) == Some(e)
  {
    assert Matches(e, db'.events[e], to, after, false);
    var found := Newest(db'.events, to, after, false, db'.nextId);
    assert Matches(found.value, db.events[found.value], to, after, false);
  }

  lemma FailureShows(c: Config, db: Db, to: string, after: Cursor, live: bool, e: Id, now: Instant, later: Instant,
                     text: string)
    requires !after.Malformed? && Newest(db.events, to, after, false, db.nextId) == Some(e)
    requires Passes(c, db, e, now) && db.events[e].analysis.None?
    ensures Check(c, AnalyzeMail(c, db, e, AtOnce(now), Some(text)), to, after, live, later).answer == Errored(e, text)
  {
    StillNewest(db, AnalyzeMail(c, db, e, AtOnce(now), Some(text)), to, after, e);
  }

  /** The other end of a retry: /check clears and queues the mail, the next worker, left alone, passes the gate and
      raises; right after that /check shows the exception text. */
  lemma RetriedMailShowsItsFailure(c: Config, s: State, to: string, after: Cursor, live: bool, e: Id, w: nat,
                                   text: string, live': bool, later: Instant)
    requires Retriable(s, to, after, e)
    requires QuotaState(c, s.db, s.db.events[e].origin, s.clock).remaining > 0
    requires w < |s.workers| && s.workers[w].Idle?
    ensures var queued := Apply(c, s, CheckWhole(to, after, live));
            && Claimable(queued.db, e)
            && var t := Run(c, queued, FailingSteps(c, queued, w, e, text));
               t.log.passes[e] == s.log.passes[e] + 1
               && Check(c, t.db, to, after, live', later).answer == Errored(e, text)
  {
    CheckQueues(c, s, to, after, live, e);
    var queued := Apply(c, s, CheckWhole(to, after, live));
    FailingRunIsAnalyzeMail(c, queued, w, e, text);
    StillNewest(s.db, queued.db, to, after, e);
    FailureShows(c, queued.db, to, after, live', e, queued.clock, later, text);
  }
}

/** One worker alone while the clock goes on between its operations: still the sequential task, as it read the clock. */
module SoloClock {
  import opened Prelude
  import opened Calendar
  import opened Quotas
  import opened Store
  import opened Protocol
  import opened Solo

  /** Before each of its operations the clock is moved to the next of these instants. */
  function TimedWorks(c: Config, s: State, w: nat, times: seq<Instant>): State
    decreases |times|
  {
    if times == [] then s else TimedWorks(c, TimedWork(c, s, w, times[0]), w, times[1..])
  }

  function TimedWork(c: Config, s: State, w: nat, at: Instant): State { Apply(c, Apply(c, s, Tick(at)), Work(w)) }

  function TimedSteps(w: nat, times: seq<Instant>): seq<Step>
    decreases |times|
  {
    if times == [] then [] else [Tick(times[0]), Work(w)] + TimedSteps(w, times[1..])
  }

  lemma {:induction false} TimedRun(c: Config, s: State, w: nat, times: seq<Instant>)
    ensures Run(c, s, TimedSteps(w, times)) == TimedWorks(c, s, w, times)
    decreases |times|
  {
    if times != [] {
      var ticked := Apply(c, s, Tick(times[0]));
      var steps := TimedSteps(w, times);
      assert steps[0] == Tick(times[0]) && steps[1..][0] == Work(w) && steps[1..][1..] == TimedSteps(w, times[1..]);
      assert Run(c, s, steps) == Run(c, ticked, steps[1..]);
      assert Run(c, ticked, steps[1..]) == Run(c, TimedWork(c, s, w, times[0]), TimedSteps(w, times[1..]));
      TimedRun(c, TimedWork(c, s, w, times[0]), w, times[1..]);
    }
  }

  lemma {:induction false} TimedSplits(c: Config, s: State, w: nat, first: seq<Instant>, rest: seq<Instant>)
    ensures TimedWorks(c, s, w, first + rest) == TimedWorks(c, TimedWorks(c, s, w, first), w, rest)
    decreases |first|
  {
    if first == [] {
      assert [] + rest == rest;
    } else {
      assert (first + rest)[0] == first[0] && (first + rest)[1..] == first[1..] + rest;
      TimedSplits(c, TimedWork(c, s, w, first[0]), w, first[1..], rest);
    }
  }

  // ----- Operations that do not read the clock -----

  predicate ReadsClock(pc: Pc) { pc.Fetched? || pc.Claimed? || pc.Inserted? }

  lemma ClockDoesNotMatter(c: Config, s: State, w: nat, at: Instant)
    requires w < |s.workers| && !ReadsClock(s.workers[w])
    ensures WorkOn(c, s.(clock := at), w) == WorkOn(c, s, w).(clock := at)
  {}

  /** Same workers, database and history, whatever the time. */
  predicate Agrees(s: State, t: State) { t == s.(clock := t.clock) }

  lemma TimedWorkAgrees(c: Config, s: State, t: State, w: nat, at: Instant)
    requires Agrees(s, t) && w < |s.workers| && !ReadsClock(s.workers[w])
    ensures Agrees(Apply(c, s, Work(w)), TimedWork(c, t, w, at))
  {
    var now := Apply(c, t, Tick(at)).clock;
    ClockDoesNotMatter(c, s, w, now);
    assert Apply(c, t, Tick(at)) == s.(clock := now);
  }

  /** Along operations that do not read the clock, moving it makes no difference. */
  lemma {:induction false} TimedAgrees(c: Config, s: State, t: State, w: nat, times: seq<Instant>)
    requires Agrees(s, t) && w < |s.workers|
    requires forall k :: 0 <= k < |times| ==>
               w < |Works(c, s, w, k).workers| && !ReadsClock(Works(c, s, w, k).workers[w])
    ensures Agrees(Works(c, s, w, |times|), TimedWorks(c, t, w, times))
    decreases |times|
  {
    if times != [] {
      var s1 := Apply(c, s, Work(w));
      assert Works(c, s, w, 0) == s;
      TimedWorkAgrees(c, s, t, w, times[0]);
      WorkIsLocal(c, s, w);
      forall k | 0 <= k < |times| - 1
        ensures w < |Works(c, s1, w, k).workers| && !ReadsClock(Works(c, s1, w, k).workers[w])
      {
        WorksFirst(c, s, w, k);
      }
      TimedAgrees(c, s1, TimedWork(c, t, w, times[0]), w, times[1..]);
      WorksFirst(c, s, w, |times| - 1);
    }
  }

  lemma WorksFirst(c: Config, s: State, w: nat, k: nat)
    ensures Works(c, s, w, k + 1) == Works(c, Apply(c, s, Work(w)), w, k)
  {}

  // ----- The stages of a task -----

  predicate InOrder(from: Instant, times: seq<Instant>) {
    && (forall k :: 0 <= k < |times| ==> from <= times[k])
    && (forall j, k :: 0 <= j < k < |times| ==> times[j] <= times[k])
  }

  /** The claim, and the reading for the gate. */
  lemma TimedClaim(c: Config, s: State, w: nat, e: Id, o: Origin, at: Instant, gated: Instant)
    requires w < |s.workers| && s.workers[w] == Fetched(e, o) && Claimable(s.db, e) && s.clock <= at <= gated
    ensures var t := TimedWorks(c, s, w, [at, gated]);
            Stands(t, w, AtGate(e, o, gated), Claim(s.db, e, at), s.log.passes) && t.clock == gated
  {
    var s1 := TimedWork(c, s, w, at);
    assert s1.workers[w] == Claimed(e, o) && s1.clock == at && s1.db == Claim(s.db, e, at);
    assert TimedWorks(c, s, w, [at, gated]) == TimedWorks(c, s1, w, [gated]);
    assert TimedWorks(c, s1, w, [gated]) == TimedWorks(c, TimedWork(c, s1, w, gated), w, []);
  }

  lemma GateReadsNoClock(c: Config, s: State, w: nat, e: Id, o: Origin, since: Instant, k: nat)
    requires w < |s.workers| && s.workers[w] == AtGate(e, o, since) && k < GateWorks(c, s.db, o, since)
    ensures w < |Works(c, s, w, k).workers| && !ReadsClock(Works(c, s, w, k).workers[w])
  {
    var s1 := Apply(c, s, Work(w));
    WorkIsLocal(c, s, w);
    if k >= 1 { WorksFirst(c, s, w, k - 1); }
    if k == 2 {
      WorkIsLocal(c, s1, w);
      WorksFirst(c, s1, w, 0);
    }
  }

  lemma TimedGate(c: Config, s: State, w: nat, e: Id, o: Origin, since: Instant, times: seq<Instant>)
    requires w < |s.workers| && s.workers[w] == AtGate(e, o, since) && |times| == GateWorks(c, s.db, o, since)
    ensures var g := ConsumeQuota(c, s.db, o, since);
            Stands(TimedWorks(c, s, w, times), w, if g.granted then Analyzing(e, o, since) else AtRefuse(e, o), g.db,
                   if g.granted then s.log.passes + multiset{e} else s.log.passes)
  {
    GateStage(c, s, w, e, o, since);
    forall k | 0 <= k < |times|
      ensures w < |Works(c, s, w, k).workers| && !ReadsClock(Works(c, s, w, k).workers[w])
    {
      GateReadsNoClock(c, s, w, e, o, since, k);
    }
    TimedAgrees(c, s, s, w, times);
  }

  lemma TimedRefusal(c: Config, s: State, w: nat, e: Id, o: Origin, times: seq<Instant>)
    requires w < |s.workers| && s.workers[w] == AtRefuse(e, o) && |times| == 2
    ensures Stands(TimedWorks(c, s, w, times), w, Idle, Release(s.db, e), s.log.passes)
  {
    var s1 := TimedWork(c, s, w, times[0]);
    assert s1.workers[w] == Refused(e, o) && s1.db == Release(s.db, e) && s1.log == s.log;
    var s2 := TimedWork(c, s1, w, times[1]);
    assert TimedWorks(c, s, w, times) == TimedWorks(c, s1, w, times[1..]);
    assert TimedWorks(c, s1, w, times[1..]) == TimedWorks(c, s2, w, times[1..][1..]);
  }

  lemma TimedInsert(c: Config, s: State, w: nat, e: Id, o: Origin, since: Instant, times: seq<Instant>)
    requires w < |s.workers| && s.workers[w] == Analyzing(e, o, since) && |times| == 2 && InOrder(s.clock, times)
    ensures Stands(TimedWorks(c, s, w, times), w, AtLink(e, o, since, s.db.nextId, times[1]), InsertAnalysis(s.db, e),
                   s.log.passes)
  {
    var s1 := TimedWork(c, s, w, times[0]);
    assert s1.workers[w] == Inserted(e, o, since, s.db.nextId) && s1.db == InsertAnalysis(s.db, e);
    assert s1.log == s.log && s1.clock == times[0];
    var s2 := TimedWork(c, s1, w, times[1]);
    assert TimedWorks(c, s, w, times) == TimedWorks(c, s1, w, times[1..]);
    assert TimedWorks(c, s1, w, times[1..]) == TimedWorks(c, s2, w, times[1..][1..]);
  }

  lemma TimedLink(c: Config, s: State, w: nat, e: Id, o: Origin, since: Instant, aid: Id, at: Instant,
                  times: seq<Instant>)
    requires w < |s.workers| && s.workers[w] == AtLink(e, o, since, aid, at) && |times| == 2
    ensures Stands(TimedWorks(c, s, w, times), w, Idle, Link(s.db, e, aid, at), s.log.passes)
  {
    var s1 := TimedWork(c, s, w, times[0]);
    assert s1.workers[w] == Linked(e, o) && s1.db == Link(s.db, e, aid, at) && s1.log == s.log;
    var s2 := TimedWork(c, s1, w, times[1]);
    assert TimedWorks(c, s, w, times) == TimedWorks(c, s1, w, times[1..]);
    assert TimedWorks(c, s1, w, times[1..]) == TimedWorks(c, s2, w, times[1..][1..]);
  }

  lemma {:induction false} TimedIdle(c: Config, s: State, w: nat, times: seq<Instant>)
    requires w < |s.workers| && s.workers[w].Idle?
    ensures Stands(TimedWorks(c, s, w, times), w, Idle, s.db, s.log.passes)
    decreases |times|
  {
    if times != [] { TimedIdle(c, TimedWork(c, s, w, times[0]), w, times[1..]); }
  }

  lemma {:induction false} ClockFollows(c: Config, s: State, w: nat, times: seq<Instant>)
    requires InOrder(s.clock, times)
    ensures TimedWorks(c, s, w, times).clock == if times == [] then s.clock else times[|times| - 1]
    decreases |times|
  {
    if times != [] {
      var s1 := TimedWork(c, s, w, times[0]);
      OnlyTheTickMoves(c, s, w, times[0]);
      ClockFollows(c, s1, w, times[1..]);
    }
  }

  lemma OnlyTheTickMoves(c: Config, s: State, w: nat, at: Instant)
    requires s.clock <= at
    ensures TimedWork(c, s, w, at).clock == at
  {}

  // ----- The whole task -----

  /** The clock as the task reads it: before its first and second operation, and before the one after the insert. */
  function ReadingsOf(c: Config, db: Db, e: Id, times: seq<Instant>): Readings
    requires |times| == 9 && Claimable(db, e)
  {
    Readings(times[0], times[1], times[3 + GateWorks(c, Claim(db, e, times[0]), db.events[e].origin, times[1])])
  }

  /** After the verdict of the gate. */
  lemma TimedEnd(c: Config, s: State, w: nat, e: Id, o: Origin, since: Instant, granted: bool, times: seq<Instant>)
    requires w < |s.workers| && |times| >= 4 && InOrder(s.clock, times)
    requires s.workers[w] == if granted then Analyzing(e, o, since) else AtRefuse(e, o)
    ensures Stands(TimedWorks(c, s, w, times), w, Idle,
                   if granted then Link(InsertAnalysis(s.db, e), e, s.db.nextId, times[1]) else Release(s.db, e),
                   s.log.passes)
  {
    var first, rest := times[..2], times[2..];
    assert times == first + rest;
    TimedSplits(c, s, w, first, rest);
    var s1 := TimedWorks(c, s, w, first);
    if granted {
      TimedInsert(c, s, w, e, o, since, first);
      var link, idle := rest[..2], rest[2..];
      assert rest == link + idle;
      TimedSplits(c, s1, w, link, idle);
      TimedLink(c, s1, w, e, o, since, s.db.nextId, times[1], link);
      TimedIdle(c, TimedWorks(c, s1, w, link), w, idle);
    } else {
      TimedRefusal(c, s, w, e, o, first);
      TimedIdle(c, s1, w, rest);
    }
  }

  /** From the gate to the end. */
  lemma TimedRest(c: Config, s: State, w: nat, e: Id, o: Origin, since: Instant, gate: seq<Instant>, last: seq<Instant>)
    requires w < |s.workers| && s.workers[w] == AtGate(e, o, since) && |gate| == GateWorks(c, s.db, o, since)
    requires |last| >= 4 && InOrder(s.clock, gate + last)
    ensures var g := ConsumeQuota(c, s.db, o, since);
            Stands(TimedWorks(c, s, w, gate + last), w, Idle,
                   if g.granted then Link(InsertAnalysis(g.db, e), e, g.db.nextId, last[1]) else Release(g.db, e),
                   if g.granted then s.log.passes + multiset{e} else s.log.passes)
  {
    OrderSplits(s.clock, gate, last);
    TimedSplits(c, s, w, gate, last);
    TimedGate(c, s, w, e, o, since, gate);
    ClockFollows(c, s, w, gate);
    TimedEnd(c, TimedWorks(c, s, w, gate), w, e, o, since, ConsumeQuota(c, s.db, o, since).granted, last);
  }

  lemma OrderSplits(from: Instant, first: seq<Instant>, rest: seq<Instant>)
    requires InOrder(from, first + rest)
    ensures InOrder(from, first) && InOrder(if first == [] then from else first[|first| - 1], rest)
  {
    var all := first + rest;
    assert forall k :: 0 <= k < |first| ==> first[k] == all[k];
    assert forall k :: 0 <= k < |rest| ==> rest[k] == all[|first| + k];
  }

  lemma TimedTask(c: Config, s: State, w: nat, e: Id, o: Origin, times: seq<Instant>)
    requires w < |s.workers| && s.workers[w] == Fetched(e, o) && Claimable(s.db, e) && o == s.db.events[e].origin
    requires |times| == 9 && InOrder(s.clock, times)
    ensures var at := ReadingsOf(c, s.db, e, times);
            Stands(TimedWorks(c, s, w, times), w, Idle, AnalyzeMail(c, s.db, e, at, None),
                   if ConsumeQuota(c, Claim(s.db, e, at.claimed), o, at.gated).granted
                   then s.log.passes + multiset{e} else s.log.passes)
  {
    var g := GateWorks(c, Claim(s.db, e, times[0]), o, times[1]);
    var first, gate, last := [times[0], times[1]], times[2..2 + g], times[2 + g..];
    assert times == first + (gate + last);
    OrderSplits(s.clock, first, gate + last);
    TimedSplits(c, s, w, first, gate + last);
    TimedClaim(c, s, w, e, o, times[0], times[1]);
    assert last[1] == times[3 + g];
    TimedRest(c, TimedWorks(c, s, w, first), w, e, o, times[1], gate, last);
  }

  /** A worker that takes a mail and is left alone while the clock goes on ends idle with exactly the database of the
      sequential task, at the instants it read. */
  lemma TimedRunIsAnalyzeMail(c: Config, s: State, w: nat, e: Id, times: seq<Instant>)
    requires w < |s.workers| && s.workers[w].Idle? && e in s.queue && |times| == 9 && InOrder(s.clock, times)
    ensures var t := Run(c, s, [Take(w, e)] + TimedSteps(w, times));
            if Claimable(s.db, e)
            then var at := ReadingsOf(c, s.db, e, times);
                 Stands(t, w, Idle, AnalyzeMail(c, s.db, e, at, None),
                        if ConsumeQuota(c, Claim(s.db, e, at.claimed), s.db.events[e].origin, at.gated).granted
                        then s.log.passes + multiset{e} else s.log.passes)
            else Stands(t, w, Idle, s.db, s.log.passes)
  {
    var t := Apply(c, s, Take(w, e));
    RunSplits(c, s, [Take(w, e)], TimedSteps(w, times));
    assert Run(c, s, [Take(w, e)]) == Run(c, t, []);
    TimedRun(c, t, w, times);
    if Claimable(s.db, e) {
      TimedTask(c, t, w, e, s.db.events[e].origin, times);
    } else {
      UnclaimableIsLeft(c, t, w, times);
    }
  }

  lemma UnclaimableIsLeft(c: Config, s: State, w: nat, times: seq<Instant>)
    requires w < |s.workers| && |times| > 0
    requires s.workers[w].Idle? || (s.workers[w].Fetched? && !Claimable(s.db, s.workers[w].e))
    ensures Stands(TimedWorks(c, s, w, times), w, Idle, s.db, s.log.passes)
  {
    var s1 := TimedWork(c, s, w, times[0]);
    assert s1.workers[w] == Idle && s1.db == s.db && s1.log == s.log;
    TimedIdle(c, s1, w, times[1..]);
  }
}

/**
 Building runs one step at a time: reachability without a crash, and the stretches of a run that witnesses share. Those
 stretches are silent: in them the clock stands still and no quota record is written.
 */
module Reach {
  import opened Prelude
  import opened Calendar
  import opened Quotas
  import opened Store
  import opened Protocol

  ghost predicate CrashFree(steps: seq<Step>) { forall i :: 0 <= i < |steps| ==> !steps[i].Crash? }

  ghost predicate Leads(c: Config, s: State, steps: seq<Step>, t: State) { CrashFree(steps) && Run(c, s, steps) == t }

  ghost predicate Reaches(c: Config, s: State, t: State) {
    exists steps {:trigger Leads(c, s, steps, t)} :: Leads(c, s, steps, t)
  }

  lemma Stay(c: Config, s: State)
    ensures Reaches(c, s, s)
  {
    assert Leads(c, s, [], s);
  }

  lemma Go(c: Config, s: State, t: State, step: Step)
    requires Reaches(c, s, t) && !step.Crash?
    ensures Reaches(c, s, Apply(c, t, step))
  {
    var steps :| Leads(c, s, steps, t);
    RunSplits(c, s, steps, [step]);
    assert Run(c, t, [step]) == Run(c, Apply(c, t, step), []);
    assert Leads(c, s, steps + [step], Apply(c, t, step));
  }

  /** Idle workers and these quota records, before any mail. */
  function Idlers(workers: nat, holders: map<Holder, Quota>, clock: Instant): State {
    State(Db(map[], map[], holders, 0), multiset{}, multiset{}, multiset{}, seq(workers, i => Idle), clock,
          Log(multiset{}, multiset{}, map[]))
  }

  /** Nothing on its way to a worker. */
  predicate Still(s: State) { s.queue == multiset{} && s.senders == multiset{} && Fresh(s.db) }

  ghost predicate Alike(s: State, t: State) {
    Still(t) && t.db.holders == s.db.holders && t.clock == s.clock && t.checks == s.checks
  }

  // ----- Silent stretches -----

  predicate SilentStep(s: State, step: Step) {
    && !step.Crash? && !step.Tick?
    && (step.Work? && step.worker < |s.workers| ==> !WritesHolder(s.workers[step.worker]))
  }

  predicate SilentRun(c: Config, s: State, steps: seq<Step>)
    decreases |steps|
  {
    steps == [] || (SilentStep(s, steps[0]) && SilentRun(c, Apply(c, s, steps[0]), steps[1..]))
  }

  ghost predicate LeadsSilently(c: Config, s: State, steps: seq<Step>, t: State) {
    SilentRun(c, s, steps) && Run(c, s, steps) == t
  }

  ghost predicate Silently(c: Config, s: State, t: State) {
    exists steps {:trigger LeadsSilently(c, s, steps, t)} :: LeadsSilently(c, s, steps, t)
  }

  lemma {:induction false} SilentAppend(c: Config, s: State, first: seq<Step>, rest: seq<Step>)
    requires SilentRun(c, s, first) && SilentRun(c, Run(c, s, first), rest)
    ensures SilentRun(c, s, first + rest)
    decreases |first|
  {
    if first == [] {
      assert [] + rest == rest;
    } else {
      assert (first + rest)[0] == first[0] && (first + rest)[1..] == first[1..] + rest;
      SilentAppend(c, Apply(c, s, first[0]), first[1..], rest);
    }
  }

  lemma StaySilent(c: Config, s: State)
    ensures Silently(c, s, s)
  {
    assert LeadsSilently(c, s, [], s);
  }

  lemma GoSilently(c: Config, s: State, t: State, step: Step)
    requires Silently(c, s, t) && SilentStep(t, step)
    ensures Silently(c, s, Apply(c, t, step))
  {
    var u := Apply(c, t, step);
    assert Run(c, t, [step]) == Run(c, u, []) && SilentRun(c, u, []);
    assert LeadsSilently(c, t, [step], u);
    Chain(c, s, t, u);
  }

  lemma Chain(c: Config, s: State, t: State, u: State)
    requires Silently(c, s, t) && Silently(c, t, u)
    ensures Silently(c, s, u)
  {
    var first :| LeadsSilently(c, s, first, t);
    var rest :| LeadsSilently(c, t, rest, u);
    SilentAppend(c, s, first, rest);
    RunSplits(c, s, first, rest);
    assert LeadsSilently(c, s, first + rest, u);
  }

  lemma {:induction false} SilentIsCrashFree(c: Config, s: State, steps: seq<Step>)
    requires SilentRun(c, s, steps)
    ensures CrashFree(steps)
    decreases |steps|
  {
    if steps != [] {
      SilentIsCrashFree(c, Apply(c, s, steps[0]), steps[1..]);
      assert forall i :: 1 <= i < |steps| ==> steps[i] == steps[1..][i - 1];
    }
  }

  /** A silent stretch carries a run on. */
  lemma Follow(c: Config, start: State, s: State, t: State)
    requires Reaches(c, start, s) && Silently(c, s, t)
    ensures Reaches(c, start, t)
  {
    var first :| Leads(c, start, first, s);
    var rest :| LeadsSilently(c, s, rest, t);
    SilentIsCrashFree(c, s, rest);
    RunSplits(c, start, first, rest);
    assert Leads(c, start, first + rest, t);
  }

  /** The next step of a worker that writes no quota record. */
  lemma Proceed(c: Config, s: State, w: nat) returns (t: State)
    requires w < |s.workers| && !WritesHolder(s.workers[w])
    ensures Silently(c, s, t) && t == WorkOn(c, s, w)
  {
    StaySilent(c, s);
    GoSilently(c, s, s, Work(w));
    t := WorkOn(c, s, w);
  }

  /** A new mail arrives, is queued and claimed by the idle worker w, which reads the clock. */
  lemma Arrive(c: Config, s: State, w: nat, to: string, o: Origin) returns (t: State)
    requires Still(s) && w < |s.workers| && s.workers[w].Idle?
    ensures Silently(c, s, t) && Alike(s, t) && t.log.passes == s.log.passes
    ensures t.workers == s.workers[w := AtGate(s.db.nextId, o, s.clock)]
    ensures t.db.nextId == s.db.nextId + 1
    ensures t.db.events == s.db.events[s.db.nextId := Event(to, o, Some(s.clock), None, None, NoError)]
  {
    var queued := Queueing(c, s, to, o);
    var taken := Taking(c, queued, w, s.db.nextId);
    t := Claiming(c, taken, w, s.db.nextId, o);
    Chain(c, s, queued, taken);
    Chain(c, s, taken, t);
  }

  lemma Queueing(c: Config, s: State, to: string, o: Origin) returns (t: State)
    requires Still(s)
    ensures Silently(c, s, t)
    ensures t == s.(db := InsertEvent(s.db, to, o), queue := multiset{s.db.nextId})
  {
    StaySilent(c, s);
    GoSilently(c, s, s, StoreMail(to, o));
    t := Apply(c, s, StoreMail(to, o));
    GoSilently(c, s, t, Send(s.db.nextId));
    t := Apply(c, t, Send(s.db.nextId));
  }

  lemma Taking(c: Config, s: State, w: nat, e: Id) returns (t: State)
    requires s.queue == multiset{e} && w < |s.workers| && s.workers[w].Idle? && e in s.db.events
    ensures Silently(c, s, t)
    ensures t == s.(queue := multiset{}, workers := s.workers[w := Fetched(e, s.db.events[e].origin)])
  {
    StaySilent(c, s);
    GoSilently(c, s, s, Take(w, e));
    t := Apply(c, s, Take(w, e));
  }

  lemma Claiming(c: Config, s: State, w: nat, e: Id, o: Origin) returns (t: State)
    requires Still(s) && w < |s.workers| && s.workers[w] == Fetched(e, o) && Claimable(s.db, e)
    ensures Silently(c, s, t) && Alike(s, t) && t.log.passes == s.log.passes
    ensures t.workers == s.workers[w := AtGate(e, o, s.clock)]
    ensures t.db.nextId == s.db.nextId && t.db.events == s.db.events[e := s.db.events[e].(started := Some(s.clock))]
  {
    var claimed := Proceed(c, s, w);
    assert claimed.workers[w] == Claimed(e, o);
    t := Proceed(c, claimed, w);
    Chain(c, s, claimed, t);
  }

  lemma Reporting(c: Config, s: State, w: nat, e: Id, o: Origin, since: Instant) returns (t: State)
    requires w < |s.workers| && s.workers[w] == Analyzing(e, o, since)
    ensures Silently(c, s, t)
    ensures t == s.(workers := s.workers[w := AtLink(e, o, since, s.db.nextId, s.clock)], db := InsertAnalysis(s.db, e))
  {
    var inserted := Proceed(c, s, w);
    assert inserted == s.(workers := s.workers[w := Inserted(e, o, since, s.db.nextId)], db := InsertAnalysis(s.db, e));
    t := Proceed(c, inserted, w);
    Chain(c, s, inserted, t);
  }

  lemma Linking(c: Config, s: State, w: nat, e: Id, o: Origin, since: Instant, aid: Id, at: Instant)
      returns (t: State)
    requires w < |s.workers| && s.workers[w] == AtLink(e, o, since, aid, at)
    ensures Silently(c, s, t)
    ensures t == s.(workers := s.workers[w := Idle], db := Link(s.db, e, aid, at))
  {
    var linked := Proceed(c, s, w);
    assert linked == s.(workers := s.workers[w := Linked(e, o)], db := Link(s.db, e, aid, at));
    t := Proceed(c, linked, w);
    Chain(c, s, linked, t);
  }

  /** A worker past the gate inserts its report, links it and is idle again. */
  lemma Finish(c: Config, s: State, w: nat) returns (t: State)
    requires Still(s) && w < |s.workers| && s.workers[w].Analyzing?
    ensures Silently(c, s, t) && Alike(s, t) && t.log == s.log
    ensures t.workers == s.workers[w := Idle]
    ensures t.db == Link(InsertAnalysis(s.db, s.workers[w].e), s.workers[w].e, s.db.nextId, s.clock)
  {
    var pc := s.workers[w];
    var reported := Reporting(c, s, w, pc.e, pc.o, pc.since);
    t := Linking(c, reported, w, pc.e, pc.o, pc.since, s.db.nextId, s.clock);
    Chain(c, s, reported, t);
  }
}

/** Runs of anonymous mails: the daily bound of an address is attained, and mails without an IP know no bound. */
module AnonymousWitness {
  import opened Prelude
  import opened Calendar
  import opened Store
  import opened Protocol
  import opened Reach
  import opened AnonymousBound

  function Finished(events: map<Id, Event>): set<Id> { set e | e in events && events[e].analysis.Some? }

  /** On the first day only mails of origin o have come; the first `flying` workers are past the gate with one each,
      `finished` of them have their report. */
  ghost predicate Crowd(s: State, o: Origin, workers: nat, flying: nat, finished: nat) {
    && Still(s) && s.clock == 0 && flying <= |s.workers| == workers
    && AllFrom(s.db.events, o) && |Finished(s.db.events)| == finished
    && (forall w {:trigger s.workers[w]} :: 0 <= w < flying ==> Flies(s.db.events, s.workers[w], o))
    && (forall w {:trigger s.workers[w]} :: flying <= w < workers ==> s.workers[w].Idle?)
    && (forall v, w {:trigger s.workers[v], s.workers[w]} ::
          0 <= v < w < flying ==> s.workers[v].e != s.workers[w].e)
  }

  ghost predicate AllFrom(events: map<Id, Event>, o: Origin) {
    forall e {:trigger events[e]} :: e in events ==>
      events[e].origin == o && (events[e].analysis.Some? ==> events[e].analyzedAt == Some(0))
  }

  predicate Flies(events: map<Id, Event>, pc: Pc, o: Origin) {
    pc.Analyzing? && pc.o == o && pc.since == 0 && pc.e in events && events[pc.e].analysis.None?
  }

  /** What the gate of o counts: every finished mail, or none when o has no IP. */
  lemma UsageIs(db: Db, o: Origin)
    requires AllFrom(db.events, o)
    ensures AnonymousUsage(db, o, 0) == if Truthy(o.ip) then |Finished(db.events)| else 0
  {
    assert UsageSet(db, UsageIp(o), 0) == if Truthy(o.ip) then Finished(db.events) else {};
  }

  lemma Grant(c: Config, s: State, w: nat, e: Id, o: Origin) returns (t: State)
    requires w < |s.workers| && s.workers[w] == AtGate(e, o, 0) && HolderOf(o).Anonymous?
    requires AnonymousUsage(s.db, o, 0) < c.anonLimit
    ensures Silently(c, s, t)
    ensures t.workers == s.workers[w := Analyzing(e, o, 0)] && t.db == s.db && t.clock == s.clock
    ensures t.queue == s.queue && t.senders == s.senders
  {
    t := Proceed(c, s, w);
  }

  /** One more mail passes the gate. */
  lemma Launch(c: Config, start: State, s: State, o: Origin, workers: nat, flying: nat, finished: nat)
      returns (t: State)
    requires Reaches(c, start, s) && Crowd(s, o, workers, flying, finished) && flying < workers
    requires HolderOf(o).Anonymous? && (if Truthy(o.ip) then finished else 0) < c.anonLimit
    ensures Reaches(c, start, t) && Crowd(t, o, workers, flying + 1, finished)
  {
    var came := Arrive(c, s, flying, "t", o);
    assert Finished(came.db.events) == Finished(s.db.events);
    UsageIs(came.db, o);
    t := Grant(c, came, flying, s.db.nextId, o);
    Follow(c, start, s, came);
    Follow(c, start, came, t);
    Joins(s, t, o, workers, flying, finished);
  }

  /** The crowd with a new mail of o in the hands of one more worker. */
  lemma Joins(s: State, t: State, o: Origin, workers: nat, flying: nat, finished: nat)
    requires Crowd(s, o, workers, flying, finished) && flying < workers && Still(t) && t.clock == 0
    requires t.workers == s.workers[flying := Analyzing(s.db.nextId, o, 0)]
    requires t.db.events == s.db.events[s.db.nextId := Event("t", o, Some(0), None, None, NoError)]
    ensures Crowd(t, o, workers, flying + 1, finished)
  {
    assert Finished(t.db.events) == Finished(s.db.events);
  }

  /** The last worker past the gate finishes. */
  lemma Land(c: Config, start: State, s: State, o: Origin, workers: nat, flying: nat, finished: nat)
      returns (t: State)
    requires Reaches(c, start, s) && Crowd(s, o, workers, flying, finished) && flying > 0
    ensures Reaches(c, start, t) && Crowd(t, o, workers, flying - 1, finished + 1)
  {
    var w := flying - 1;
    var e := s.workers[w].e;
    t := Finish(c, s, w);
    Follow(c, start, s, t);
    assert Finished(t.db.events) == Finished(s.db.events) + {e};
  }

  lemma {:induction false} Flow(c: Config, o: Origin, workers: nat, finished: nat) returns (t: State)
    requires workers >= 1 && HolderOf(o).Anonymous? && c.anonLimit >= 1 && (Truthy(o.ip) ==> finished <= c.anonLimit)
    ensures Reaches(c, Idlers(workers, map[], 0), t) && Crowd(t, o, workers, 0, finished)
    decreases finished
  {
    if finished == 0 {
      t := Idlers(workers, map[], 0);
      Stay(c, t);
      assert Finished(t.db.events) == {};
    } else {
      t := Flow(c, o, workers, finished - 1);
      t := Launch(c, Idlers(workers, map[], 0), t, o, workers, 0, finished - 1);
      t := Land(c, Idlers(workers, map[], 0), t, o, workers, 1, finished - 1);
    }
  }

  lemma {:induction false} LaunchAll(c: Config, o: Origin, workers: nat, flying: nat, finished: nat) returns (t: State)
    requires flying <= workers && workers >= 1 && HolderOf(o).Anonymous? && finished < c.anonLimit
    ensures Reaches(c, Idlers(workers, map[], 0), t) && Crowd(t, o, workers, flying, finished)
    decreases flying
  {
    if flying == 0 {
      t := Flow(c, o, workers, finished);
    } else {
      t := LaunchAll(c, o, workers, flying - 1, finished);
      t := Launch(c, Idlers(workers, map[], 0), t, o, workers, flying - 1, finished);
    }
  }

  lemma {:induction false} LandAll(c: Config, start: State, s: State, o: Origin, workers: nat, flying: nat,
                                   finished: nat) returns (t: State)
    requires Reaches(c, start, s) && Crowd(s, o, workers, flying, finished)
    ensures Reaches(c, start, t) && Crowd(t, o, workers, 0, finished + flying)
    decreases flying
  {
    t := s;
    if flying > 0 {
      t := Land(c, start, s, o, workers, flying, finished);
      t := LandAll(c, start, t, o, workers, flying - 1, finished + 1);
    }
  }

  lemma DoneIsFinished(s: State, o: Origin, workers: nat, finished: nat)
    requires Crowd(s, o, workers, 0, finished) && HolderOf(o).Anonymous?
    ensures |Done(s.db.events, o.ip, 0)| == finished
  {
    assert Done(s.db.events, o.ip, 0) == Finished(s.db.events);
  }

  /** For every limit, number of workers and IP, some crash-free run finishes exactly limit + W - 1 anonymous analyses
      of the address on one day: the bound cannot be lowered. */
  lemma AnonymousBoundIsAttained(c: Config, workers: nat, ip: string) returns (t: State)
    requires workers >= 1 && c.anonLimit >= 1 && ip != ""
    ensures Init(Idlers(workers, map[], 0)) && Reaches(c, Idlers(workers, map[], 0), t)
    ensures |Done(t.db.events, Some(ip), 0)| == Ceiling(c.anonLimit, workers)
  {
    var o := Origin(Some(ip), None, None);
    t := LaunchAll(c, o, workers, workers, c.anonLimit - 1);
    t := LandAll(c, Idlers(workers, map[], 0), t, o, workers, workers, c.anonLimit - 1);
    DoneIsFinished(t, o, workers, c.anonLimit - 1 + workers);
  }

  /** Of mails with no IP, or an empty one, any number is analysed on one day, one analysis a day allowed or more. */
  lemma WithoutIpNoBound(c: Config, workers: nat, ip: Option<string>, n: nat) returns (t: State)
    requires workers >= 1 && c.anonLimit >= 1 && !Truthy(ip)
    ensures Init(Idlers(workers, map[], 0)) && Reaches(c, Idlers(workers, map[], 0), t)
    ensures |Done(t.db.events, ip, 0)| == n
  {
    var o := Origin(ip, None, None);
    t := Flow(c, o, workers, n);
    DoneIsFinished(t, o, workers, n);
  }

  /** The bound holds in every run. */
  ghost predicate AlwaysBounded(c: Config, workers: nat, ip: Option<string>) {
    forall s, steps, day :: Init(s) && |s.workers| == workers ==>
      var t := Run(c, s, steps);
      |Done(t.db.events, ip, day)| + |InFlight(t.workers, ip, day)| <= Ceiling(c.anonLimit, workers)
  }

  /** Which mails the daily limit holds for: those with an IP, and all when the limit grants nothing. */
  lemma AnonymousBoundExactly(c: Config, workers: nat, ip: Option<string>)
    requires workers >= 1
    ensures AlwaysBounded(c, workers, ip) <==> Watched(c, ip)
  {
    if Watched(c, ip) {
      forall s, steps, day | Init(s) && |s.workers| == workers
        ensures var t := Run(c, s, steps);
                |Done(t.db.events, ip, day)| + |InFlight(t.workers, ip, day)| <= Ceiling(c.anonLimit, workers)
      {
        AnonymousDayBounded(c, s, steps, ip, day);
      }
    } else {
      var n := Ceiling(c.anonLimit, workers) + 1;
      var t := WithoutIpNoBound(c, workers, ip, n);
      var steps :| Leads(c, Idlers(workers, map[], 0), steps, t);
      assert |Done(Run(c, Idlers(workers, map[], 0), steps).db.events, ip, 0)| == n;
    }
  }
}

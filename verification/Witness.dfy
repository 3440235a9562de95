/** Runs that reach the limits: the daily bound is attained, two overlapping /check calls can lose a mail, and a later
    mail shuts out a refused one. No worker crashes in any of them. */
module Witness {
  import opened Prelude
  import opened Calendar
  import opened Quotas
  import opened Store
  import opened Protocol
  import opened Safety
  import opened Delivery
  import opened Reach
  import opened Retry

  const C: Config := Config(5, 25, 25)
  const PAYER: Holder := User("u")
  const SENDER: Origin := Origin(Some("192.0.2.1"), Some("u"), None)

  function Paid(limit: int, used: int, resetAt: Instant): map<Holder, Quota> {
    map[PAYER := Quota(Some(limit), Some(used), Some(resetAt))]
  }

  /** Idle workers and one account with a daily limit, before any mail. */
  function Start(workers: nat, limit: int): State {
    Idlers(workers, Paid(limit, 0, DAY), 0)
  }

  lemma Read(s: State, w: nat, e: Id, since: Instant, limit: int, used: int, resetAt: Instant) returns (t: State)
    requires w < |s.workers| && s.workers[w] == AtGate(e, SENDER, since)
    requires s.db.holders == Paid(limit, used, resetAt)
    ensures Silently(C, s, t)
    ensures var pc := if resetAt <= since then AtReset(e, SENDER, since, limit) else Decide(s.workers[w], used, limit);
            t == s.(workers := s.workers[w := pc])
  {
    t := Proceed(C, s, w);
    assert HolderOf(SENDER) == PAYER;
  }

  lemma ArriveAndRead(s: State, w: nat, limit: int, used: int, resetAt: Instant) returns (t: State)
    requires Still(s) && w < |s.workers| && s.workers[w].Idle? && s.db.holders == Paid(limit, used, resetAt)
    ensures Silently(C, s, t) && Alike(s, t) && t.log.passes == s.log.passes
    ensures var pc := AtGate(s.db.nextId, SENDER, s.clock);
            t.workers == s.workers[w := if resetAt <= s.clock then AtReset(pc.e, SENDER, s.clock, limit)
                                        else Decide(pc, used, limit)]
    ensures t.db.nextId == s.db.nextId + 1
    ensures t.db.events == s.db.events[s.db.nextId := Event("t", SENDER, Some(s.clock), None, None, NoError)]
  {
    var came := Arrive(C, s, w, "t", SENDER);
    t := Read(came, w, s.db.nextId, s.clock, limit, used, resetAt);
    Chain(C, s, came, t);
    var pc := t.workers[w];
    assert t.workers == s.workers[w := pc];
  }

  /** The write of a reset. */
  lemma Resetting(s: State, w: nat, e: Id, since: Instant, limit: int, used: int, resetAt: Instant) returns (t: State)
    requires w < |s.workers| && s.workers[w] == AtReset(e, SENDER, since, limit) && limit > 0
    requires s.db.holders == Paid(limit, used, resetAt)
    ensures t == Apply(C, s, Work(w))
    ensures t == s.(workers := s.workers[w := AtCharge(e, SENDER, since)],
                    db := s.db.(holders := Paid(limit, 0, TomorrowStart(since))))
  {
    t := Apply(C, s, Work(w));
    assert HolderOf(SENDER) == PAYER;
  }

  lemma Charging(s: State, w: nat, e: Id, since: Instant, limit: int, used: int, resetAt: Instant) returns (t: State)
    requires w < |s.workers| && s.workers[w] == AtCharge(e, SENDER, since) && Still(s)
    requires s.db.holders == Paid(limit, used, resetAt)
    ensures t == Apply(C, s, Work(w))
    ensures Still(t) && t.db == s.db.(holders := Paid(limit, used + 1, resetAt))
    ensures t.workers == s.workers[w := Analyzing(e, SENDER, since)]
    ensures t.clock == s.clock && t.checks == s.checks && |t.log.passes| == |s.log.passes| + 1
  {
    t := Apply(C, s, Work(w));
    assert HolderOf(SENDER) == PAYER;
  }

  // ----- The bound on the stored count is attained -----

  /** The first `armed` workers have read a count under the limit and not yet charged; the others are idle. */
  ghost predicate Armed(s: State, workers: nat, armed: nat, limit: int, used: int) {
    && Still(s) && s.checks == multiset{} && s.clock == 0 && s.db.holders == Paid(limit, used, DAY)
    && armed <= |s.workers| == workers && |s.log.passes| == used
    && (forall w {:trigger s.workers[w]} :: 0 <= w < armed ==>
          s.workers[w].AtCharge? && s.workers[w].o == SENDER && s.workers[w].since == 0)
    && (forall w {:trigger s.workers[w]} :: armed <= w < workers ==> s.workers[w].Idle?)
  }

  lemma Arm(start: State, s: State, workers: nat, armed: nat, limit: int, used: int) returns (t: State)
    requires Reaches(C, start, s) && Armed(s, workers, armed, limit, used) && armed < workers && used < limit
    ensures Reaches(C, start, t) && Armed(t, workers, armed + 1, limit, used)
  {
    t := ArriveAndRead(s, armed, limit, used, DAY);
    Follow(C, start, s, t);
    assert t.workers == s.workers[armed := AtCharge(s.db.nextId, SENDER, 0)];
  }

  lemma Fire(start: State, s: State, workers: nat, armed: nat, limit: int, used: int) returns (t: State)
    requires Reaches(C, start, s) && Armed(s, workers, armed, limit, used) && armed > 0
    ensures Reaches(C, start, t) && Armed(t, workers, armed - 1, limit, used + 1)
  {
    var w := armed - 1;
    var charged := Charging(s, w, s.workers[w].e, 0, limit, used, DAY);
    Go(C, start, s, Work(w));
    t := Finish(C, charged, w);
    Follow(C, start, charged, t);
    assert t.workers == s.workers[w := Idle];
  }

  lemma {:induction false} Spend(workers: nat, limit: int, used: nat) returns (t: State)
    requires workers >= 1 && used < limit
    ensures Reaches(C, Start(workers, limit), t) && Armed(t, workers, 0, limit, used)
    decreases used
  {
    if used == 0 {
      t := Start(workers, limit);
      Stay(C, t);
    } else {
      t := Spend(workers, limit, used - 1);
      t := Arm(Start(workers, limit), t, workers, 0, limit, used - 1);
      t := Fire(Start(workers, limit), t, workers, 1, limit, used - 1);
    }
  }

  lemma {:induction false} ArmAll(workers: nat, limit: int, armed: nat) returns (t: State)
    requires 1 <= workers && armed <= workers && limit >= 1
    ensures Reaches(C, Start(workers, limit), t) && Armed(t, workers, armed, limit, limit - 1)
    decreases armed
  {
    if armed == 0 {
      t := Spend(workers, limit, limit - 1);
    } else {
      t := ArmAll(workers, limit, armed - 1);
      t := Arm(Start(workers, limit), t, workers, armed - 1, limit, limit - 1);
    }
  }

  lemma {:induction false} FireAll(start: State, s: State, workers: nat, armed: nat, limit: int, used: int)
      returns (t: State)
    requires Reaches(C, start, s) && Armed(s, workers, armed, limit, used)
    ensures Reaches(C, start, t) && Armed(t, workers, 0, limit, used + armed)
    decreases armed
  {
    t := s;
    if armed > 0 {
      t := Fire(start, s, workers, armed, limit, used);
      t := FireAll(start, t, workers, armed - 1, limit, used + 1);
    }
  }

  /** For every number of workers and every limit, some run without a crash drives the stored count, within one day, to
      exactly limit + W - 1: the bound cannot be lowered. */
  lemma DailyBoundIsAttained(workers: nat, limit: int) returns (t: State)
    requires workers >= 1 && limit >= 1
    ensures Init(Start(workers, limit)) && Reaches(C, Start(workers, limit), t)
    ensures t.db.holders == Paid(limit, limit + workers - 1, DAY) && t.clock == 0
    ensures |t.log.passes| == limit + workers - 1
    ensures Armed(t, workers, 0, limit, limit + workers - 1)
  {
    assert Midnight(DAY);
    t := ArmAll(workers, limit, workers);
    t := FireAll(Start(workers, limit), t, workers, workers, limit, limit - 1);
  }

  // ----- Two overlapping checks lose a mail -----

  /** A refused mail, newest of its address, whose payer has quota again, and an idle worker. */
  ghost predicate Refusal(s: State, e: Id) {
    && Still(s) && |s.workers| == 1 && s.workers[0].Idle?
    && Newest(s.db.events, "t", NoCursor, false, s.db.nextId) == Some(e)
    && s.db.events[e].origin == SENDER && s.db.events[e].started.None? && s.db.events[e].analysis.None?
    && s.db.events[e].error.QuotaExceeded?
    && QuotaState(C, s.db, SENDER, s.clock).remaining > 0
  }

  function Seen(e: Id): CheckPc { SawRefusal(e, SENDER, false) }

  function Free(e: Id): CheckPc { SawQuota(e, SENDER, false) }

  lemma SeeRefusal(start: State, s: State, e: Id) returns (t: State)
    requires Reaches(C, start, s) && Refusal(s, e)
    ensures Reaches(C, start, t) && t == s.(checks := s.checks + multiset{Seen(e)}) && Refusal(t, e)
  {
    Go(C, start, s, CheckFind("t", NoCursor));
    t := Apply(C, s, CheckFind("t", NoCursor));
  }

  lemma SeeQuota(start: State, s: State, e: Id) returns (t: State)
    requires Reaches(C, start, s) && Refusal(s, e) && Seen(e) in s.checks
    ensures Reaches(C, start, t) && t == s.(checks := s.checks - multiset{Seen(e)} + multiset{Free(e)}) && Refusal(t, e)
  {
    Go(C, start, s, CheckQuota(Seen(e)));
    t := Apply(C, s, CheckQuota(Seen(e)));
  }

  /** One call clears the refusal and queues the mail. */
  lemma ClearAndQueue(start: State, s: State, e: Id) returns (t: State)
    requires Reaches(C, start, s) && Refusal(s, e) && Free(e) in s.checks
    ensures Reaches(C, start, t) && t.checks == s.checks - multiset{Free(e)}
    ensures t.workers == s.workers && t.queue == multiset{e} && Fresh(t.db)
    ensures e in t.db.events && t.db.events[e] == s.db.events[e].(error := NoError)
  {
    Go(C, start, s, CheckClear(Free(e)));
    t := Apply(C, s, CheckClear(Free(e)));
    Go(C, start, t, Send(e));
    t := Apply(C, t, Send(e));
  }

  /** Both calls see the refusal and the free quota; the first one clears it and queues the mail. */
  lemma BothSeeFreeQuota(start: State, s: State, e: Id) returns (t: State)
    requires Reaches(C, start, s) && Refusal(s, e) && s.checks == multiset{}
    ensures Reaches(C, start, t) && t.checks == multiset{Free(e)}
    ensures t.workers == s.workers && t.queue == multiset{e} && Fresh(t.db)
    ensures e in t.db.events && t.db.events[e] == s.db.events[e].(error := NoError)
  {
    t := SeeRefusal(start, s, e);
    t := SeeRefusal(start, t, e);
    t := SeeQuota(start, t, e);
    t := SeeQuota(start, t, e);
    t := ClearAndQueue(start, t, e);
  }

  /** A worker takes the mail and its analysis raises. */
  lemma RetryRaises(start: State, s: State, e: Id) returns (t: State)
    requires Reaches(C, start, s) && s.queue == multiset{e} && s.workers == [Idle] && Claimable(s.db, e)
    ensures Reaches(C, start, t) && t.checks == s.checks
    ensures t.workers == [AtFail(e, s.db.events[e].origin, true, "error")]
    ensures e in t.db.events && t.db.events[e] == s.db.events[e].(started := Some(s.clock))
  {
    t := Taking(C, s, 0, e);
    Follow(C, start, s, t);
    Go(C, start, t, Work(0));
    t := Apply(C, t, Work(0));
    assert t.workers[0] == Claimed(e, s.db.events[e].origin);
    Go(C, start, t, Raise(0, "error"));
    t := Apply(C, t, Raise(0, "error"));
  }

  /** The worker writes the error text, and the second call erases it. */
  lemma ErrorIsErased(start: State, s: State, e: Id, o: Origin) returns (t: State)
    requires Reaches(C, start, s) && Free(e) in s.checks && s.workers == [AtFail(e, o, true, "error")]
    requires e in s.db.events && s.db.events[e].started.Some? && s.db.events[e].analysis.None?
    ensures Reaches(C, start, t) && Lost(t, e)
  {
    Go(C, start, s, Work(0));
    t := Apply(C, s, Work(0));
    assert t.workers == [Idle];
    Go(C, start, t, CheckClear(Free(e)));
    t := Apply(C, t, CheckClear(Free(e)));
  }

  /** One account, one analysis a day: the second mail of a day is refused. */
  lemma SecondMailIsRefused() returns (t: State, e: Id)
    ensures Init(Start(1, 1)) && Reaches(C, Start(1, 1), t) && Refusal(t, e) && t.checks == multiset{}
  {
    var start := Start(1, 1);
    var s := DailyBoundIsAttained(1, 1);
    e := s.db.nextId;
    var refused := ArriveAndRead(s, 0, 1, 1, DAY);
    Follow(C, start, s, refused);
    t := Refuse(start, refused, e);
  }

  /** The refusal is written, and the day passes. */
  lemma Refuse(start: State, s: State, e: Id) returns (t: State)
    requires Reaches(C, start, s) && Still(s) && s.clock == 0 && s.workers == [AtRefuse(e, SENDER)]
    requires s.db.holders == Paid(1, 1, DAY) && s.db.nextId == e + 1 && e in s.db.events
    requires s.db.events[e] == Event("t", SENDER, Some(0), None, None, NoError)
    ensures Reaches(C, start, t) && Refusal(t, e) && t.checks == s.checks
  {
    Go(C, start, s, Work(0));
    t := Apply(C, s, Work(0));
    assert t == s.(workers := [Refused(e, SENDER)], db := Release(s.db, e));
    Go(C, start, t, Work(0));
    t := Apply(C, t, Work(0));
    assert t == s.(workers := [Idle], db := Release(s.db, e));
    Go(C, start, t, Tick(DAY));
    t := Apply(C, t, Tick(DAY));
    IsRefusal(t, e);
  }

  lemma IsRefusal(s: State, e: Id)
    requires Still(s) && s.workers == [Idle] && s.clock == DAY
    requires s.db.holders == Paid(1, 1, DAY) && s.db.nextId == e + 1 && e in s.db.events
    requires s.db.events[e] == Event("t", SENDER, None, None, None, QuotaExceeded)
    ensures Refusal(s, e)
  {
    assert Matches(e, s.db.events[e], "t", NoCursor, false);
    assert HolderOf(SENDER) == PAYER;
  }

  /** Two overlapping /check calls and one failing attempt lose a mail, in a run that any start allows and without any
      crash: one-step clearing is needed for the promise that no mail is lost. */
  lemma OverlappingChecksLoseMail() returns (t: State, e: Id)
    ensures Init(Start(1, 1)) && Reaches(C, Start(1, 1), t) && Lost(t, e)
  {
    var start := Start(1, 1);
    var s;
    s, e := SecondMailIsRefused();
    s := BothSeeFreeQuota(start, s, e);
    s := RetryRaises(start, s, e);
    t := ErrorIsErased(start, s, e, s.workers[0].o);
  }

  // ----- A later mail shuts out a refused one -----

  /** A refused mail with quota free again, which no run ever tries: another mail has come to its address since. */
  lemma RefusedThenSuperseded() returns (t: State, e: Id)
    ensures Init(Start(1, 1)) && Reaches(C, Start(1, 1), t)
    ensures Closed(t, e) && t.db.events[e].error.QuotaExceeded?
    ensures QuotaState(C, t.db, t.db.events[e].origin, t.clock).remaining > 0
    ensures forall steps :: Run(C, t, steps).log.passes[e] == t.log.passes[e]
  {
    var s;
    s, e := SecondMailIsRefused();
    Go(C, Start(1, 1), s, StoreMail("t", SENDER));
    t := Apply(C, s, StoreMail("t", SENDER));
    SupersededIsClosed(s, t, e);
    var first :| Leads(C, Start(1, 1), first, t);
    InitHolds(Start(1, 1));
    RunKeeps(C, Start(1, 1), first);
    forall steps ensures Run(C, t, steps).log.passes[e] == t.log.passes[e] { NeverTriedAgain(C, t, steps, e); }
  }

  lemma SupersededIsClosed(s: State, t: State, e: Id)
    requires Refusal(s, e) && s.checks == multiset{} && t == Apply(C, s, StoreMail("t", SENDER))
    ensures Closed(t, e) && t.db.events[e] == s.db.events[e]
    ensures QuotaState(C, t.db, SENDER, t.clock).remaining > 0
  {
    assert s.db.nextId in t.db.events && t.db.events[s.db.nextId].to == "t" && s.db.nextId > e;
    assert HasNewer(t.db.events, e);
    assert HolderOf(SENDER) == PAYER;
  }
}

/** What a caller of /check and /result is told, and when: after each ending of a task, and when nothing has come. */
module Answers {
  import opened Prelude
  import opened Calendar
  import opened Quotas
  import opened Store
  import opened Protocol
  import opened Safety
  import opened Solo
  import opened Retry

  /** No mail of the address is newer than the cursor. */
  ghost predicate NothingCame(db: Db, to: string, after: Cursor) {
    forall e: Id :: e in db.events && db.events[e].to == to ==> after.At? && e <= after.id
  }

  /** An address nothing has come to is answered with waiting while it lives and with expired after that; nothing is
      queued or written. */
  lemma NothingIsAnswered(c: Config, db: Db, to: string, after: Cursor, live: bool, now: Instant)
    requires NothingCame(db, to, after) && !after.Malformed?
    ensures Check(c, db, to, after, true, now) == Checked(db, None, Waiting)
    ensures Check(c, db, to, after, false, now) == Checked(db, None, AddressExpired)
    ensures after.NoCursor? ==> Result(db, to, true) == Waiting && Result(db, to, false) == AddressExpired
  {
    assert Newest(db.events, to, after, false, db.nextId).None?;
    assert Newest(db.events, to, after, true, db.nextId).None?;
  }

  /** A malformed cursor is refused. */
  lemma MalformedIsRefused(c: Config, db: Db, to: string, live: bool, now: Instant)
    ensures Check(c, db, to, Malformed, live, now) == Checked(db, None, BadRequest)
  {}

  /** e is the newest mail of its address, and the caller's cursor is older. */
  ghost predicate IsNewest(db: Db, e: Id, after: Cursor) {
    e in db.events && !HasNewer(db.events, e) && !after.Malformed? && (after.At? ==> after.id < e)
  }

  lemma NewestIsFound(db: Db, e: Id, after: Cursor)
    requires Fresh(db) && IsNewest(db, e, after)
    ensures Newest(db.events, db.events[e].to, after, false, db.nextId) == Some(e)
  {
    var to := db.events[e].to;
    assert Matches(e, db.events[e], to, after, false);
    var found := Newest(db.events, to, after, false, db.nextId);
    assert found.Some? && found.value >= e && db.events[found.value].to == to;
  }

  lemma NewestStays(db: Db, db': Db, e: Id, after: Cursor)
    requires IsNewest(db, e, after) && db'.events.Keys == db.events.Keys
    requires forall x :: x in db.events ==> db'.events[x].to == db.events[x].to
    ensures IsNewest(db', e, after)
  {
    NewerStays(db.events, db'.events, e);
  }

  /** What /check says of the newest mail, and what it does: show a report; show a text; wait for the worker that has
      claimed it; queue it when nobody has. A text or a claim is not looked at behind a report. */
  lemma NewestIsAnswered(c: Config, db: Db, e: Id, after: Cursor, live: bool, now: Instant)
    requires Fresh(db) && IsNewest(db, e, after)
    ensures var ev := db.events[e];
            var r := Check(c, db, ev.to, after, live, now);
            && (ev.analysis.Some? && ev.analysis.value in db.analyses ==>
                  r == Checked(db, None, Analyzed(e, ev.analysis.value)))
            && (ev.analysis.None? && ev.error.Failed? ==> r == Checked(db, None, Errored(e, ev.error.text)))
            && (ev.analysis.None? && ev.error.NoError? ==>
                  r == Checked(db, if ev.started.None? then Some(e) else None, Processing(e)))
  {
    NewestIsFound(db, e, after);
  }

  /** After a task that reported, /check and /result show its report. */
  lemma ReportIsAnswered(c: Config, db: Db, e: Id, at: Readings, after: Cursor, live: bool, now: Instant)
    requires Fresh(db) && Claimable(db, e) && IsNewest(db, e, after)
    requires ConsumeQuota(c, Claim(db, e, at.claimed), db.events[e].origin, at.gated).granted
    ensures var done := AnalyzeMail(c, db, e, at, None);
            && Check(c, done, db.events[e].to, after, live, now) == Checked(done, None, Analyzed(e, db.nextId))
            && Result(done, db.events[e].to, live) == Analyzed(e, db.nextId)
  {
    var done := AnalyzeMail(c, db, e, at, None);
    TaskKeepsNewest(c, db, e, at, None, after);
    TaskKeepsNewest(c, db, e, at, None, NoCursor);
    ReportedIsResult(done, e, live);
  }

  /** After one that raised past the gate, /check shows the text. */
  lemma FailureIsAnswered(c: Config, db: Db, e: Id, at: Readings, text: string, after: Cursor, live: bool, now: Instant)
    requires Fresh(db) && Claimable(db, e) && IsNewest(db, e, after) && db.events[e].analysis.None?
    requires ConsumeQuota(c, Claim(db, e, at.claimed), db.events[e].origin, at.gated).granted
    ensures var done := AnalyzeMail(c, db, e, at, Some(text));
            Check(c, done, db.events[e].to, after, live, now) == Checked(done, None, Errored(e, text))
  {
    TaskKeepsNewest(c, db, e, at, Some(text), after);
  }

  /** After one that was refused, /check says so, and does nothing as long as the gate would refuse again. */
  lemma RefusalIsAnswered(c: Config, db: Db, e: Id, at: Readings, failure: Option<string>, after: Cursor, live: bool)
    requires Fresh(db) && Claimable(db, e) && IsNewest(db, e, after) && db.events[e].analysis.None?
    requires !ConsumeQuota(c, Claim(db, e, at.claimed), db.events[e].origin, at.gated).granted
    ensures var done := AnalyzeMail(c, db, e, at, failure);
            Check(c, done, db.events[e].to, after, live, at.gated) == Checked(done, None, LimitReached(e))
  {
    var done := AnalyzeMail(c, db, e, at, failure);
    var o := db.events[e].origin;
    TaskKeepsNewest(c, db, e, at, failure, after);
    RefusedGate(c, Claim(db, e, at.claimed), o, at.gated);
    SameReport(c, ConsumeQuota(c, Claim(db, e, at.claimed), o, at.gated).db, done, o, at.gated);
  }

  lemma TaskKeepsNewest(c: Config, db: Db, e: Id, at: Readings, failure: Option<string>, after: Cursor)
    requires Fresh(db) && Claimable(db, e) && IsNewest(db, e, after)
    ensures var done := AnalyzeMail(c, db, e, at, failure);
            && Fresh(done) && IsNewest(done, e, after) && done.events[e].to == db.events[e].to
            && Newest(done.events, db.events[e].to, after, false, done.nextId) == Some(e)
  {
    var done := AnalyzeMail(c, db, e, at, failure);
    TaskKeepsEvents(c, db, e, at, failure);
    NewestStays(db, done, e, after);
    NewestIsFound(done, e, after);
  }

  lemma TaskKeepsEvents(c: Config, db: Db, e: Id, at: Readings, failure: Option<string>)
    requires Fresh(db) && Claimable(db, e)
    ensures var done := AnalyzeMail(c, db, e, at, failure);
            && Fresh(done) && done.events.Keys == db.events.Keys
            && (forall x :: x in db.events ==> done.events[x].to == db.events[x].to)
  {}

  /** /result shows the newest report, and a mail that is newest of all with a report is that. */
  lemma ReportedIsResult(db: Db, e: Id, live: bool)
    requires Fresh(db) && IsNewest(db, e, NoCursor) && db.events[e].analysis.Some?
    requires db.events[e].analysis.value in db.analyses
    ensures Result(db, db.events[e].to, live) == Analyzed(e, db.events[e].analysis.value)
  {
    var to := db.events[e].to;
    assert Matches(e, db.events[e], to, NoCursor, true);
    var found := Newest(db.events, to, NoCursor, true, db.nextId);
    assert found.Some? && found.value >= e && db.events[found.value].to == to;
  }

  lemma RefusedGate(c: Config, db: Db, o: Origin, now: Instant)
    requires !ConsumeQuota(c, db, o, now).granted
    ensures QuotaState(c, ConsumeQuota(c, db, o, now).db, o, now).remaining <= 0
  {
    QuotaStateAnnouncesGate(c, db, o, now);
  }

  lemma SameReport(c: Config, db: Db, db': Db, o: Origin, now: Instant)
    requires db'.holders == db.holders && LinksStable(db.events, db'.events)
    ensures QuotaState(c, db', o, now) == QuotaState(c, db, o, now)
  {
    UsageStable(db, db', UsageIp(o), now);
  }

  /** An anonymous analysis with an IP uses up one of the IP's day on which it finished, seen from any time up to the
      end of that day, and nothing of a later day. */
  lemma ReportUsesTheDay(c: Config, db: Db, e: Id, at: Readings, now: Instant)
    requires Fresh(db) && Claimable(db, e) && db.events[e].analysis.None?
    requires HolderOf(db.events[e].origin).Anonymous? && Truthy(db.events[e].origin.ip)
    requires ConsumeQuota(c, Claim(db, e, at.claimed), db.events[e].origin, at.gated).granted
    ensures var o := db.events[e].origin;
            QuotaState(c, AnalyzeMail(c, db, e, at, None), o, now).used
            == QuotaState(c, db, o, now).used + (if DayOf(now) <= DayOf(at.finished) then 1 else 0)
  {
    var o := db.events[e].origin;
    var ip := UsageIp(o);
    var done := AnalyzeMail(c, db, e, at, None);
    DayStartOrder(now, at.finished);
    if DayOf(now) <= DayOf(at.finished) {
      assert UsageSet(done, ip, now) == UsageSet(db, ip, now) + {e};
    } else {
      assert UsageSet(done, ip, now) == UsageSet(db, ip, now);
    }
  }

  // ----- The steps of a /check -----

  /** The caller goes on by itself: it looks, reads the quota if it must, clears, and queues. */
  function CheckSteps(c: Config, s: State, to: string, after: Cursor): seq<Step> {
    var found := Newest(s.db.events, to, after, false, s.db.nextId);
    if after.Malformed? || found.None? || s.db.events[found.value].analysis.Some? then [CheckFind(to, after)]
    else
      var e, ev := found.value, s.db.events[found.value];
      var k := SawRefusal(e, ev.origin, ev.started.Some?);
      var seen := SawQuota(e, ev.origin, ev.started.Some?);
      if ev.error.QuotaExceeded? then
        if QuotaState(c, s.db, ev.origin, s.clock).remaining <= 0 then [CheckFind(to, after), CheckQuota(k)]
        else if ev.started.Some? then [CheckFind(to, after), CheckQuota(k), CheckClear(seen)]
        else [CheckFind(to, after), CheckQuota(k), CheckClear(seen), Send(e)]
      else if ev.error.Failed? || ev.started.Some? then [CheckFind(to, after)]
      else [CheckFind(to, after), Send(e)]
  }

  lemma RunFirst(c: Config, s: State, steps: seq<Step>)
    requires 0 < |steps|
    ensures var a := Apply(c, s, steps[0]);
            && (|steps| == 1 ==> Run(c, s, steps) == a)
            && (|steps| > 1 ==> Run(c, s, steps) == Run(c, a, steps[1..]))
  {
    assert Run(c, s, steps) == Run(c, Apply(c, s, steps[0]), steps[1..]);
  }

  predicate ShowsRefusal(s: State, to: string, after: Cursor, e: Id) {
    && s.checks == multiset{} && s.senders == multiset{} && !after.Malformed?
    && Newest(s.db.events, to, after, false, s.db.nextId) == Some(e)
    && s.db.events[e].analysis.None? && s.db.events[e].error.QuotaExceeded?
  }

  lemma SeesRefusal(c: Config, s: State, to: string, after: Cursor, e: Id)
    requires ShowsRefusal(s, to, after, e)
    ensures Apply(c, s, CheckFind(to, after))
         == s.(checks := multiset{SawRefusal(e, s.db.events[e].origin, s.db.events[e].started.Some?)})
  {}

  lemma ReadsQuota(c: Config, s: State, k: CheckPc)
    requires s.checks == multiset{k} && k.SawRefusal?
    ensures Apply(c, s, CheckQuota(k))
         == s.(checks := if QuotaState(c, s.db, k.o, s.clock).remaining <= 0 then multiset{}
                         else multiset{SawQuota(k.e, k.o, k.started)})
  {}

  lemma Clears(c: Config, s: State, k: CheckPc)
    requires s.checks == multiset{k} && k.SawQuota? && s.senders == multiset{}
    ensures Apply(c, s, CheckClear(k))
         == s.(checks := multiset{}, db := SetError(s.db, k.e, NoError),
               senders := if k.started then multiset{} else multiset{k.e})
  {}

  lemma Sends(c: Config, s: State, e: Id)
    requires s.senders == multiset{e}
    ensures Run(c, s, [Send(e)]) == s.(senders := multiset{}, queue := s.queue + multiset{e})
  {
    RunFirst(c, s, [Send(e)]);
  }

  /** A refused mail, no other caller at work: found; when quota is free, seen, cleared, and queued. */
  lemma ClearSteps(c: Config, s: State, to: string, after: Cursor, e: Id, steps: seq<Step>)
    requires ShowsRefusal(s, to, after, e) && steps == CheckSteps(c, s, to, after)
    ensures var free := QuotaState(c, s.db, s.db.events[e].origin, s.clock).remaining > 0;
            Run(c, s, steps) == if !free then s
                                else s.(db := SetError(s.db, e, NoError),
                                        queue := if s.db.events[e].started.None? then s.queue + multiset{e}
                                                 else s.queue)
  {
    var ev := s.db.events[e];
    var k := SawRefusal(e, ev.origin, ev.started.Some?);
    var seen := SawQuota(e, ev.origin, ev.started.Some?);
    SeesRefusal(c, s, to, after, e);
    RunFirst(c, s, steps);
    var s1 := s.(checks := multiset{k});
    ReadsQuota(c, s1, k);
    RunFirst(c, s1, steps[1..]);
    if QuotaState(c, s.db, ev.origin, s.clock).remaining > 0 {
      var s2 := s.(checks := multiset{seen});
      Clears(c, s2, seen);
      RunFirst(c, s2, steps[1..][1..]);
      if ev.started.None? {
        Sends(c, s.(db := SetError(s.db, e, NoError), senders := multiset{e}), e);
        assert steps[1..][1..][1..] == [Send(e)];
      }
    }
  }

  /** Nothing to clear: the mail is queued when it is newest, untouched and free of errors, and nothing else happens. */
  lemma FindSteps(c: Config, s: State, to: string, after: Cursor, live: bool, steps: seq<Step>)
    requires s.checks == multiset{} && s.senders == multiset{} && steps == CheckSteps(c, s, to, after)
    requires var found := Newest(s.db.events, to, after, false, s.db.nextId);
             found.None? || !ShowsRefusal(s, to, after, found.value)
    ensures Run(c, s, steps) == Apply(c, s, CheckWhole(to, after, live))
  {
    RunFirst(c, s, steps);
    var found := Newest(s.db.events, to, after, false, s.db.nextId);
    if |steps| > 1 {
      FindQueues(c, s, to, after, live, found.value);
      Sends(c, s.(senders := multiset{found.value}), found.value);
      assert steps[1..] == [Send(found.value)];
    } else {
      FindDoesNothing(c, s, to, after, live);
    }
  }

  lemma FindQueues(c: Config, s: State, to: string, after: Cursor, live: bool, e: Id)
    requires s.senders == multiset{} && !after.Malformed?
    requires Newest(s.db.events, to, after, false, s.db.nextId) == Some(e)
    requires s.db.events[e].analysis.None? && s.db.events[e].error.NoError? && s.db.events[e].started.None?
    ensures Apply(c, s, CheckFind(to, after)) == s.(senders := multiset{e})
    ensures Apply(c, s, CheckWhole(to, after, live)) == s.(queue := s.queue + multiset{e})
  {}

  lemma FindDoesNothing(c: Config, s: State, to: string, after: Cursor, live: bool)
    requires s.checks == multiset{} && s.senders == multiset{}
    requires var found := Newest(s.db.events, to, after, false, s.db.nextId);
             found.None? || !ShowsRefusal(s, to, after, found.value)
    requires |CheckSteps(c, s, to, after)| == 1
    ensures Apply(c, s, CheckFind(to, after)) == s
    ensures Apply(c, s, CheckWhole(to, after, live)) == s
  {}

  /** A /check whose database operations run one after another with nothing between them is the /check of one step. */
  lemma CheckAloneIsWhole(c: Config, s: State, to: string, after: Cursor, live: bool)
    requires s.checks == multiset{} && s.senders == multiset{}
    ensures Run(c, s, CheckSteps(c, s, to, after)) == Apply(c, s, CheckWhole(to, after, live))
  {
    var found := Newest(s.db.events, to, after, false, s.db.nextId);
    var steps := CheckSteps(c, s, to, after);
    if found.Some? && ShowsRefusal(s, to, after, found.value) {
      ClearSteps(c, s, to, after, found.value, steps);
    } else {
      FindSteps(c, s, to, after, live, steps);
    }
  }
}

/** The database as the program updates it in place: each operation is proved against its meaning in Store or Ingest. */
module MailDatabase {
  import opened Prelude
  import opened Calendar
  import opened Strings
  import opened Recipients
  import opened Quotas
  import opened Store
  import opened Ingest

  class Database {
    var events: map<Id, Event>
    var analyses: map<Id, Id>
    var holders: map<Holder, Quota>
    var nextId: Id
    var queue: multiset<Id>
    var records: map<string, Address>

    ghost function Snapshot(): Db
      reads this
    {
      Db(events, analyses, holders, nextId)
    }

    constructor ()
      ensures Snapshot() == Db(map[], map[], map[], 0) && Fresh(Snapshot()) && queue == multiset{} && records == map[]
    {
      events, analyses, holders, nextId := map[], map[], map[], 0;
      queue, records := multiset{}, map[];
    }

    /** Compare and set: only one caller finds the claim free. */
    method ClaimMailEvent(e: Id, now: Instant) returns (won: bool)
      modifies this`events
      ensures won == Claimable(old(Snapshot()), e)
      ensures Snapshot() == if won then Claim(old(Snapshot()), e, now) else old(Snapshot())
    {
      won := e in events && events[e].started.None?;
      if won {
        events := events[e := events[e].(started := Some(now))];
      }
    }

    method ConsumeDailyQuota(c: Config, o: Origin, now: Instant) returns (allowed: bool)
      modifies this`holders
      ensures Snapshot() == ConsumeQuota(c, old(Snapshot()), o, now).db
      ensures allowed == ConsumeQuota(c, old(Snapshot()), o, now).granted
    {
      var h := HolderOf(o);
      if h.Anonymous? {
        var ip := UsageIp(o);
        var finished := set e | e in events && CountsFor(events[e], ip, now);
        assert finished == UsageSet(Snapshot(), ip, now);
        return |finished| < c.anonLimit;
      }
      var record := Lookup(holders, h);
      var dailyLimit := LimitOf(record, DefaultLimit(c, h));
      var dailyUsed := UsedOf(record);
      if Expired(record, now) {
        dailyUsed := 0;
        if h in holders {
          holders := holders[h := holders[h].(used := Some(0), resetAt := Some(TomorrowStart(now)))];
        }
      }
      if dailyUsed >= dailyLimit {
        return false;
      }
      if h in holders {
        holders := holders[h := holders[h].(used := Some(UsedOf(Some(holders[h])) + 1))];
      }
      return true;
    }

    /** A worker task from start to end; `at` is what its clock readings give, and `failure` is what analysing the
        message raises, if it does. */
    method AnalyzeReceivedMail(c: Config, e: Id, at: Readings, failure: Option<string>)
      modifies this`events, this`analyses, this`holders, this`nextId
      ensures Snapshot() == AnalyzeMail(c, old(Snapshot()), e, at, failure)
    {
      if e !in events {
        return;
      }
      var origin := events[e].origin;
      var won := ClaimMailEvent(e, at.claimed);
      if !won {
        return;
      }
      var allowed := ConsumeDailyQuota(c, origin, at.gated);
      if !allowed {
        events := events[e := events[e].(error := QuotaExceeded, started := None)];
        return;
      }
      if failure.Some? {
        events := events[e := events[e].(error := Failed(failure.value))];
        return;
      }
      var aid := nextId;
      analyses := analyses[aid := e];
      nextId := nextId + 1;
      events := events[e := events[e].(analysis := Some(aid), analyzedAt := Some(at.finished))];
    }

    /** Whether the address still accepts mail, for which its record must not have expired. */
    method ReadLiveness(to: string, now: Instant) returns (live: bool)
      ensures live == LiveIn(records, now, to)
    {
      if to !in records {
        return false;
      }
      var expires := records[to].expires;
      return expires.Some? && expires.value > now;
    }

    method CheckAddress(c: Config, to: string, after: Cursor, now: Instant) returns (r: Answer)
      modifies this`events, this`queue
      ensures var spec := Check(c, old(Snapshot()), to, after, LiveIn(records, now, to), now);
              && r == spec.answer && Snapshot() == spec.db
              && queue == (if spec.enqueue.Some? then old(queue) + multiset{spec.enqueue.value} else old(queue))
    {
      if after.Malformed? {
        return BadRequest;
      }
      var found := Newest(events, to, after, false, nextId);
      if found.None? {
        var live := ReadLiveness(to, now);
        return if live then Waiting else AddressExpired;
      }
      var e, ev := found.value, events[found.value];
      if ev.analysis.Some? {
        return if ev.analysis.value in analyses then Analyzed(e, ev.analysis.value) else AnalysisMissing;
      }
      if ev.error.QuotaExceeded? {
        var quota := ReadQuotaState(c, ev.origin, now);
        if quota.remaining <= 0 {
          return LimitReached(e);
        }
        ev := ev.(error := NoError);
        events := events[e := ev];
      }
      if ev.error.Failed? {
        return Errored(e, ev.error.text);
      }
      if ev.started.None? {
        queue := queue + multiset{e};
      }
      return Processing(e);
    }

    method ReadQuotaState(c: Config, o: Origin, now: Instant) returns (r: Report)
      ensures r == QuotaState(c, Snapshot(), o, now)
    {
      var h := HolderOf(o);
      if h.Anonymous? {
        var ip := UsageIp(o);
        var finished := set e | e in events && CountsFor(events[e], ip, now);
        assert finished == UsageSet(Snapshot(), ip, now);
        return Report(c.anonLimit, |finished|, Max(0, c.anonLimit - |finished|), TomorrowStart(now));
      }
      var record := Lookup(holders, h);
      var limit := LimitOf(record, DefaultLimit(c, h));
      var used := UsedOf(record);
      var resetAt := if record.Some? then record.value.resetAt else None;
      if resetAt.None? || resetAt.value <= now {
        used := 0;
        resetAt := Some(TomorrowStart(now));
      }
      return Report(limit, used, Max(0, limit - used), resetAt.value);
    }

    method GetResult(to: string, now: Instant) returns (r: Answer)
      ensures r == Result(Snapshot(), to, LiveIn(records, now, to))
    {
      var found := Newest(events, to, NoCursor, true, nextId);
      if found.None? {
        var live := ReadLiveness(to, now);
        return if live then Waiting else AddressExpired;
      }
      var aid := events[found.value].analysis.value;
      return if aid in analyses then Analyzed(found.value, aid) else AnalysisMissing;
    }

    method StoreMessage(site: Site, to: string) returns (e: Id)
      modifies this`events, this`nextId
      ensures e == old(nextId) && Snapshot() == InsertEvent(old(Snapshot()), to, OriginFor(site, to))
    {
      e := nextId;
      var origin := if to in site.origins then site.origins[to] else Origin(None, None, None);
      events := events[e := Event(to, origin, None, None, None, NoError)];
      nextId := nextId + 1;
    }

    /** One round of the loop below. */
    method HandleRecipient(site: Site, recipient: string, trouble: Trouble) returns (reply: Reply)
      modifies this`events, this`nextId, this`queue
      ensures Mailroom(Snapshot(), queue, reply)
           == Receive(site, Mailroom(old(Snapshot()), old(queue), Accepted), StoredForm(site, recipient), trouble)
    {
      var to := Normal(recipient);
      if !EndsWith(to, "@" + Lower(site.domain)) {
        return Accepted;
      }
      if trouble.BeforeInsert? {
        return TryAgain;
      }
      var e := StoreMessage(site, to);
      if trouble.AfterInsert? {
        return TryAgain;
      }
      if trouble.NotQueued? {
        return Raised;
      }
      queue := queue + multiset{e};
      return Accepted;
    }

    /** `troubles` tells for each recipient whether and where handling it breaks. */
    method HandleData(site: Site, size: nat, sizeLimit: nat, recipients: seq<string>, troubles: seq<Trouble>)
        returns (reply: Reply)
      requires |troubles| == |recipients|
      modifies this`events, this`nextId, this`queue
      ensures size > sizeLimit ==> reply.TooLarge? && Snapshot() == old(Snapshot()) && queue == old(queue)
      ensures size <= sizeLimit ==>
                Mailroom(Snapshot(), queue, reply)
                == Deliver(site, Mailroom(old(Snapshot()), old(queue), Accepted), Addressed(site, recipients),
                           troubles, |recipients|)
    {
      if size > sizeLimit {
        return TooLarge;
      }
      ghost var start := Mailroom(Snapshot(), queue, Accepted);
      ghost var to := Addressed(site, recipients);
      for k := 0 to |recipients|
        invariant Mailroom(Snapshot(), queue, Accepted) == Deliver(site, start, to, troubles, k)
      {
        reply := HandleRecipient(site, recipients[k], troubles[k]);
        assert to[k] == StoredForm(site, recipients[k]);
        if !reply.Accepted? {
          Stays(site, start, to, troubles, k + 1, |recipients|);
          return;
        }
      }
      return Accepted;
    }
  }

  /** The gate's answer to e when its task runs alone. */
  function GateOf(c: Config, db: Db, e: Id, at: Readings): Gate
    requires Claimable(db, e)
  {
    ConsumeQuota(c, Claim(db, e, at.claimed), db.events[e].origin, at.gated)
  }

  lemma PassedTaskIsOver(c: Config, db: Db, e: Id, at: Readings, failure: Option<string>)
    requires Claimable(db, e) && GateOf(c, db, e, at).granted
    ensures !Claimable(AnalyzeMail(c, db, e, at, failure), e)
  {}

  lemma RefusedGateIsStable(c: Config, db: Db, o: Origin, now: Instant)
    requires !ConsumeQuota(c, db, o, now).granted
    ensures var once := ConsumeQuota(c, db, o, now);
            ConsumeQuota(c, once.db, o, now) == once
  {
    TomorrowFormsAgree(now);
  }

  /** The gate and the writes on one event do not see each other. */
  lemma GateIgnoresClaims(c: Config, db: Db, db': Db, o: Origin, now: Instant)
    requires db'.holders == db.holders && LinksStable(db.events, db'.events)
    ensures var g, g' := ConsumeQuota(c, db, o, now), ConsumeQuota(c, db', o, now);
            g'.granted == g.granted && g'.db == db'.(holders := g.db.holders)
  {
    UsageStable(db, db', UsageIp(o), now);
  }

  lemma GateRefusesAgain(c: Config, db: Db, e: Id, o: Origin, now: Instant, later: Instant)
    requires e in db.events && !ConsumeQuota(c, db, o, now).granted
    ensures var again := Claim(Release(ConsumeQuota(c, db, o, now).db, e), e, later);
            ConsumeQuota(c, again, o, now) == Gate(again, false)
  {
    var once := ConsumeQuota(c, db, o, now).db;
    RefusedGateIsStable(c, db, o, now);
    GateIgnoresClaims(c, once, Claim(Release(once, e), e, later), o, now);
  }

  lemma RefusedTaskIsStable(c: Config, db: Db, e: Id, at: Readings, failure: Option<string>,
                            at': Readings, failure': Option<string>)
    requires Claimable(db, e) && !GateOf(c, db, e, at).granted && at'.gated == at.gated
    ensures var once := AnalyzeMail(c, db, e, at, failure);
            AnalyzeMail(c, once, e, at', failure') == once
  {
    var o := db.events[e].origin;
    var once := AnalyzeMail(c, db, e, at, failure);
    GateRefusesAgain(c, Claim(db, e, at.claimed), e, o, at.gated, at'.claimed);
    assert Claimable(once, e) && once.events[e].origin == o;
    assert Release(Claim(once, e, at'.claimed), e).events == once.events;
  }

  /** A duplicate of a task changes nothing: after a pass of the gate at any times, after a refusal as long as the gate
      reads the same clock. */
  lemma DuplicateTaskChangesNothing(c: Config, db: Db, e: Id, at: Readings, failure: Option<string>,
                                    at': Readings, failure': Option<string>)
    requires Claimable(db, e)
    requires GateOf(c, db, e, at).granted || at'.gated == at.gated
    ensures var once := AnalyzeMail(c, db, e, at, failure);
            AnalyzeMail(c, once, e, at', failure') == once
  {
    if GateOf(c, db, e, at).granted {
      PassedTaskIsOver(c, db, e, at, failure);
    } else {
      RefusedTaskIsStable(c, db, e, at, failure, at', failure');
    }
  }
}

/** What one incoming message does to the database and the queue, recipient by recipient. */
module Ingest {
  import opened Prelude
  import opened Calendar
  import opened Strings
  import opened Recipients
  import opened Store

  /** Where handling one recipient can break: before its event is inserted, after that, or when it is queued. */
  datatype Trouble = NoTrouble | BeforeInsert | AfterInsert | NotQueued

  /** The SMTP answer: 552, 451, an exception that leaves the handler, or 250. */
  datatype Reply = TooLarge | TryAgain | Raised | Accepted

  datatype Mailroom = Mailroom(db: Db, queue: multiset<Id>, reply: Reply)

  /** The site: its mail domain and whom each known address belongs to. */
  datatype Site = Site(domain: string, origins: map<string, Origin>)

  predicate Expected(site: Site, recipient: string) { EndsWith(Normal(recipient), "@" + Lower(site.domain)) }

  function OriginFor(site: Site, to: string): Origin {
    if to in site.origins then site.origins[to] else Origin(None, None, None)
  }

  function NewMail(site: Site, to: string): Event { Event(to, OriginFor(site, to), None, None, None, NoError) }

  /** The stored form of a recipient of this site; others are skipped. */
  function StoredForm(site: Site, recipient: string): Option<string> {
    if Expected(site, recipient) then Some(Normal(recipient)) else None
  }

  function Addressed(site: Site, recipients: seq<string>): seq<Option<string>> {
    seq(|recipients|, k requires 0 <= k < |recipients| => StoredForm(site, recipients[k]))
  }

  function Receive(site: Site, m: Mailroom, to: Option<string>, trouble: Trouble): Mailroom {
    if to.None? then m
    else if trouble.BeforeInsert? then m.(reply := TryAgain)
    else
      var stored := m.(db := InsertEvent(m.db, to.value, OriginFor(site, to.value)));
      if trouble.AfterInsert? then stored.(reply := TryAgain)
      else if trouble.NotQueued? then stored.(reply := Raised)
      else stored.(queue := m.queue + multiset{m.db.nextId})
  }

  /** After the first n recipients; the loop ends at the first one that breaks. */
  function Deliver(site: Site, m: Mailroom, to: seq<Option<string>>, troubles: seq<Trouble>, n: nat): Mailroom
    requires n <= |to| == |troubles|
  {
    if n == 0 then m
    else
      var before := Deliver(site, m, to, troubles, n - 1);
      if before.reply.Accepted? then Receive(site, before, to[n - 1], troubles[n - 1]) else before
  }

  predicate Smooth(to: seq<Option<string>>, troubles: seq<Trouble>, n: nat)
    requires n <= |to| == |troubles|
  {
    forall k :: 0 <= k < n && to[k].Some? ==> troubles[k].NoTrouble?
  }

  lemma {:induction false} Stays(site: Site, m: Mailroom, to: seq<Option<string>>, troubles: seq<Trouble>,
                                 k: nat, n: nat)
    requires k <= n <= |to| == |troubles|
    requires !Deliver(site, m, to, troubles, k).reply.Accepted?
    ensures Deliver(site, m, to, troubles, n) == Deliver(site, m, to, troubles, k)
  {
    if k < n { Stays(site, m, to, troubles, k, n - 1); }
  }

  lemma SmoothSplits(to: seq<Option<string>>, troubles: seq<Trouble>, n: nat)
    requires n < |to| == |troubles|
    ensures Smooth(to, troubles, n + 1)
            <==> Smooth(to, troubles, n) && (to[n].Some? ==> troubles[n].NoTrouble?)
  {}

  /** 250 is the answer exactly when no recipient of this site broke. */
  lemma {:induction false} AcceptedExactly(site: Site, m: Mailroom, to: seq<Option<string>>, troubles: seq<Trouble>,
                                           n: nat)
    requires n <= |to| == |troubles| && m.reply.Accepted?
    ensures Deliver(site, m, to, troubles, n).reply.Accepted? <==> Smooth(to, troubles, n)
  {
    if n > 0 {
      AcceptedExactly(site, m, to, troubles, n - 1);
      SmoothSplits(to, troubles, n - 1);
    }
  }

  /** The addresses of this site among the first n recipients, in their order, in stored form. */
  function Kept(to: seq<Option<string>>, n: nat): seq<string>
    requires n <= |to|
  {
    if n == 0 then []
    else Kept(to, n - 1) + (if to[n - 1].Some? then [to[n - 1].value] else [])
  }

  function IdsFrom(first: Id, n: nat): multiset<Id> {
    if n == 0 then multiset{} else IdsFrom(first, n - 1) + multiset{first + (n - 1)}
  }

  /** One new unclaimed event per address, ids in order, and nothing else. */
  ghost predicate Gains(site: Site, db: Db, db': Db, kept: seq<string>) {
    && db'.analyses == db.analyses && db'.holders == db.holders && db'.nextId == db.nextId + |kept|
    && (forall e: Id :: e in db'.events <==> e in db.events || db.nextId <= e < db.nextId + |kept|)
    && (forall e: Id :: e in db.events ==> db'.events[e] == db.events[e])
    && (forall k :: 0 <= k < |kept| ==> db'.events[db.nextId + k] == NewMail(site, kept[k]))
  }

  lemma OneMore(site: Site, db: Db, db': Db, kept: seq<string>, to: string)
    requires Fresh(db) && Gains(site, db, db', kept)
    ensures Gains(site, db, InsertEvent(db', to, OriginFor(site, to)), kept + [to])
  {
    assert db'.nextId == db.nextId + |kept|;
  }

  ghost predicate Keeps(site: Site, start: Mailroom, m: Mailroom, kept: seq<string>) {
    Gains(site, start.db, m.db, kept) && m.queue == start.queue + IdsFrom(start.db.nextId, |kept|)
  }

  lemma OneMoreKept(site: Site, start: Mailroom, m: Mailroom, m': Mailroom, kept: seq<string>, kept': seq<string>,
                    to: Option<string>, trouble: Trouble)
    requires Fresh(start.db) && Keeps(site, start, m, kept)
    requires to.Some? ==> trouble.NoTrouble?
    requires m' == Receive(site, m, to, trouble)
    requires kept' == kept + (if to.Some? then [to.value] else [])
    ensures Keeps(site, start, m', kept')
  {
    if to.Some? { OneMore(site, start.db, m.db, kept, to.value); }
  }

  /** A 250 means: each recipient of this site has one new event, and each of these is queued exactly once more. */
  lemma {:induction false} AcceptedStoresEach(site: Site, m: Mailroom, to: seq<Option<string>>,
                                              troubles: seq<Trouble>, n: nat)
    requires n <= |to| == |troubles| && m.reply.Accepted? && Fresh(m.db)
    requires Smooth(to, troubles, n)
    ensures Keeps(site, m, Deliver(site, m, to, troubles, n), Kept(to, n))
  {
    if n > 0 {
      var before := Deliver(site, m, to, troubles, n - 1);
      assert before.reply.Accepted? by { AcceptedExactly(site, m, to, troubles, n - 1); }
      AcceptedStoresEach(site, m, to, troubles, n - 1);
      OneMoreKept(site, m, before, Deliver(site, m, to, troubles, n), Kept(to, n - 1),
                  Kept(to, n), to[n - 1], troubles[n - 1]);
    }
  }

  /** k is the first recipient of this site that breaks. */
  predicate BreaksAt(to: seq<Option<string>>, troubles: seq<Trouble>, k: nat)
    requires k < |to| == |troubles|
  {
    Smooth(to, troubles, k) && to[k].Some? && !troubles[k].NoTrouble?
  }

  /** Otherwise everything before the first broken recipient is kept and queued, nothing after it is looked at, and the
      broken one leaves at most a stored event that is not queued. */
  lemma {:induction false} BrokenStopsThere(site: Site, m: Mailroom, to: seq<Option<string>>, troubles: seq<Trouble>,
                                            k: nat, n: nat)
    requires k < n <= |to| == |troubles| && m.reply.Accepted? && Fresh(m.db)
    requires BreaksAt(to, troubles, k)
    ensures var r := Deliver(site, m, to, troubles, n);
            var kept := Kept(to, k);
            && r.reply == (if troubles[k].NotQueued? then Raised else TryAgain)
            && r.queue == m.queue + IdsFrom(m.db.nextId, |kept|)
            && Gains(site, m.db, r.db, if troubles[k].BeforeInsert? then kept else kept + [to[k].value])
  {
    if n == k + 1 {
      AcceptedExactly(site, m, to, troubles, k);
      AcceptedStoresEach(site, m, to, troubles, k);
      var before := Deliver(site, m, to, troubles, k);
      OneMore(site, m.db, before.db, Kept(to, k), to[k].value);
    } else {
      BrokenStopsThere(site, m, to, troubles, k, n - 1);
    }
  }

  /** Whatever came in, queued or not, the next /check on its address finds it, not an older report, and queues it. */
  lemma NewMailIsQueuedByCheck(c: Config, site: Site, db: Db, db': Db, kept: seq<string>, k: nat,
                               live: bool, now: Instant)
    requires Fresh(db) && Gains(site, db, db', kept) && k < |kept|
    ensures exists e: Id :: e >= db.nextId + k && Check(c, db', kept[k], NoCursor, live, now)
                                                  == Checked(db', Some(e), Processing(e))
  {
    var mine := db.nextId + k;
    var found := Newest(db'.events, kept[k], NoCursor, false, db'.nextId);
    assert Matches(mine, db'.events[mine], kept[k], NoCursor, false);
    assert found.Some? && mine <= found.value < db'.nextId;
    assert db'.events[found.value] == NewMail(site, kept[found.value - db.nextId]);
    assert Check(c, db', kept[k], NoCursor, live, now) == Checked(db', Some(found.value), Processing(found.value));
  }
}

/** The documents of the mail pipeline and the meaning of each database operation on them. */
module Store {
  import opened Prelude
  import opened Calendar
  import opened Quotas

  /** Object ids, as their position in creation order. */
  type Id = nat

  /** Who a mail is accounted to, copied from the address record when the mail arrives. */
  datatype Origin = Origin(ip: Option<string>, owner: Option<string>, key: Option<string>)

  /** last_error of an event: empty, the quota refusal, or the text of some exception. */
  datatype LastError = NoError | QuotaExceeded | Failed(text: string)

  datatype Event = Event(
    to: string,
    origin: Origin,
    started: Option<Instant>,
    analysis: Option<Id>,
    analyzedAt: Option<Instant>,
    error: LastError)

  datatype Holder = ApiKey(id: string) | User(id: string) | Anonymous

  /** Object ids of events and analyses come from one strictly increasing counter. */
  datatype Db = Db(
    events: map<Id, Event>,
    analyses: map<Id, Id>,
    holders: map<Holder, Quota>,
    nextId: Id)

  datatype Config = Config(anonLimit: int, userLimit: int, apiLimit: int)

  predicate Truthy(o: Option<string>) { o.Some? && o.value != "" }

  /** The key pays before the account, the account before the address. */
  function HolderOf(o: Origin): Holder {
    if Truthy(o.key) then ApiKey(o.key.value)
    else if Truthy(o.owner) then User(o.owner.value)
    else Anonymous
  }

  function DefaultLimit(c: Config, h: Holder): int {
    match h
    case ApiKey(_) => c.apiLimit
    case User(_) => c.userLimit
    case Anonymous => c.anonLimit
  }

  // ----- The daily gate -----

  function UsageIp(o: Origin): string { if Truthy(o.ip) then o.ip.value else "unknown" }

  predicate CountsFor(ev: Event, ip: string, now: Instant) {
    && ev.origin.ip == Some(ip)
    && ev.analysis.Some?
    && ev.analyzedAt.Some? && DayStart(now) <= ev.analyzedAt.value
  }

  /** Every finished analysis of the address today, signed-in ones included. */
  function UsageSet(db: Db, ip: string, now: Instant): set<Id> {
    set e | e in db.events && CountsFor(db.events[e], ip, now)
  }

  function AnonymousUsage(db: Db, o: Origin, now: Instant): nat { |UsageSet(db, UsageIp(o), now)| }

  function RecordOf(db: Db, h: Holder): Record { Lookup(db.holders, h) }

  /** An update by id: it writes nothing when there is no such document. */
  function UpdateHolder(db: Db, h: Holder, r: Record): Db {
    if h in db.holders && r.Some? then db.(holders := db.holders[h := r.value]) else db
  }

  datatype Gate = Gate(db: Db, granted: bool)

  function ConsumeQuota(c: Config, db: Db, o: Origin, now: Instant): Gate {
    var h := HolderOf(o);
    if h.Anonymous? then Gate(db, AnonymousUsage(db, o, now) < c.anonLimit)
    else
      var v := Consume(RecordOf(db, h), DefaultLimit(c, h), now);
      Gate(UpdateHolder(db, h, v.record), v.granted)
  }

  function QuotaState(c: Config, db: Db, o: Origin, now: Instant): Report {
    var h := HolderOf(o);
    if h.Anonymous? then
      var used := AnonymousUsage(db, o, now);
      Report(c.anonLimit, used, Max(0, c.anonLimit - used), TomorrowStart(now))
    else Describe(RecordOf(db, h), DefaultLimit(c, h), now)
  }

  /** In all three scopes the reported remainder is positive exactly when the gate would grant now. A grant on an
      existing holder lowers the report by exactly one; a refusal, and an anonymous grant, leave it unchanged. */
  lemma QuotaStateAnnouncesGate(c: Config, db: Db, o: Origin, now: Instant)
    ensures ConsumeQuota(c, db, o, now).granted <==> QuotaState(c, db, o, now).remaining > 0
    ensures var before := QuotaState(c, db, o, now);
            QuotaState(c, ConsumeQuota(c, db, o, now).db, o, now)
            == (if ConsumeQuota(c, db, o, now).granted && HolderOf(o) in db.holders && !HolderOf(o).Anonymous?
                then before.(used := before.used + 1, remaining := before.remaining - 1)
                else before)
  {
    ReportAnnouncesGate(RecordOf(db, HolderOf(o)), DefaultLimit(c, HolderOf(o)), now);
  }

  /** Without a record nothing is counted: the gate grants every call or, with a default limit of nothing, none. */
  lemma MissingHolderIsNeverCounted(c: Config, db: Db, o: Origin, now: Instant)
    requires !HolderOf(o).Anonymous? && HolderOf(o) !in db.holders
    ensures ConsumeQuota(c, db, o, now) == Gate(db, DefaultLimit(c, HolderOf(o)) > 0)
  {}

  /** A gate call for one holder never moves the report of an origin that pays elsewhere. */
  lemma GateTouchesOnlyItsHolder(c: Config, db: Db, o: Origin, other: Origin, now: Instant, later: Instant)
    requires HolderOf(o) != HolderOf(other)
    ensures QuotaState(c, ConsumeQuota(c, db, o, now).db, other, later) == QuotaState(c, db, other, later)
  {
    var after := ConsumeQuota(c, db, o, now).db;
    assert UsageSet(after, UsageIp(other), later) == UsageSet(db, UsageIp(other), later);
  }

  // ----- Writes on one event -----

  function UpdateEvent(db: Db, e: Id, ev: Event): Db
    requires e in db.events
  {
    db.(events := db.events[e := ev])
  }

  function InsertEvent(db: Db, to: string, o: Origin): Db {
    db.(events := db.events[db.nextId := Event(to, o, None, None, None, NoError)], nextId := db.nextId + 1)
  }

  predicate Claimable(db: Db, e: Id) { e in db.events && db.events[e].started.None? }

  function Claim(db: Db, e: Id, now: Instant): Db
    requires Claimable(db, e)
  {
    UpdateEvent(db, e, db.events[e].(started := Some(now)))
  }

  function Release(db: Db, e: Id): Db {
    if e in db.events then UpdateEvent(db, e, db.events[e].(started := None, error := QuotaExceeded)) else db
  }

  function InsertAnalysis(db: Db, e: Id): Db {
    db.(analyses := db.analyses[db.nextId := e], nextId := db.nextId + 1)
  }

  function Link(db: Db, e: Id, aid: Id, at: Instant): Db {
    if e in db.events
    then UpdateEvent(db, e, db.events[e].(analysis := Some(aid), analyzedAt := Some(at)))
    else db
  }

  function SetError(db: Db, e: Id, error: LastError): Db {
    if e in db.events then UpdateEvent(db, e, db.events[e].(error := error)) else db
  }

  ghost predicate LinksStable(events: map<Id, Event>, events': map<Id, Event>) {
    && (forall x :: x in events ==>
          && x in events' && events'[x].origin == events[x].origin
          && events'[x].analysis == events[x].analysis && events'[x].analyzedAt == events[x].analyzedAt)
    && (forall x :: x in events' && x !in events ==> events'[x].analysis.None?)
  }

  /** Usage depends only on origins, links and finishing times. */
  lemma UsageStable(db: Db, db': Db, ip: string, now: Instant)
    requires LinksStable(db.events, db'.events)
    ensures UsageSet(db', ip, now) == UsageSet(db, ip, now)
  {}

  /** The instants a worker reads the clock at: for the claim, for the gate, and when the report is in. */
  datatype Readings = Readings(claimed: Instant, gated: Instant, finished: Instant)

  function AtOnce(now: Instant): Readings { Readings(now, now, now) }

  /** The whole worker task, run alone. `failure` is the exception text when reading or analysing the message raises. */
  function AnalyzeMail(c: Config, db: Db, e: Id, at: Readings, failure: Option<string>): Db {
    if !Claimable(db, e) then db
    else
      var gate := ConsumeQuota(c, Claim(db, e, at.claimed), db.events[e].origin, at.gated);
      if !gate.granted then Release(gate.db, e)
      else if failure.Some? then SetError(gate.db, e, Failed(failure.value))
      else Link(InsertAnalysis(gate.db, e), e, gate.db.nextId, at.finished)
  }

  // ----- /check and /result -----

  /** The `after` argument: absent or empty, an object id, or text that is no object id. */
  datatype Cursor = NoCursor | At(id: Id) | Malformed

  datatype Answer =
    | BadRequest
    | Waiting
    | AddressExpired
    | Analyzed(event: Id, analysis: Id)
    | AnalysisMissing
    | LimitReached(event: Id)
    | Errored(event: Id, text: string)
    | Processing(event: Id)

  predicate Matches(e: Id, ev: Event, to: string, after: Cursor, linkedOnly: bool) {
    && ev.to == to
    && (after.At? ==> e > after.id)
    && (linkedOnly ==> ev.analysis.Some?)
  }

  /** The greatest matching id below `hi`; ids are assigned in increasing order, so this is the newest event. */
  function Newest(events: map<Id, Event>, to: string, after: Cursor, linkedOnly: bool, hi: Id): (r: Option<Id>)
    ensures r.Some? ==>
              && r.value in events && r.value < hi && Matches(r.value, events[r.value], to, after, linkedOnly)
    ensures forall e :: e in events && e < hi && Matches(e, events[e], to, after, linkedOnly)
                    ==> r.Some? && e <= r.value
  {
    if hi == 0 then None
    else if hi - 1 in events && Matches(hi - 1, events[hi - 1], to, after, linkedOnly) then Some(hi - 1)
    else Newest(events, to, after, linkedOnly, hi - 1)
  }

  function Nothing(live: bool): Answer { if live then Waiting else AddressExpired }

  datatype Checked = Checked(db: Db, enqueue: Option<Id>, answer: Answer)

  /** /check taken as one step. `live` says whether the address still accepts mail. */
  function Check(c: Config, db: Db, to: string, after: Cursor, live: bool, now: Instant): Checked {
    if after.Malformed? then Checked(db, None, BadRequest)
    else
      var found := Newest(db.events, to, after, false, db.nextId);
      if found.None? then Checked(db, None, Nothing(live))
      else
        var e := found.value;
        var ev := db.events[e];
        if ev.analysis.Some? then
          if ev.analysis.value in db.analyses then Checked(db, None, Analyzed(e, ev.analysis.value))
          else Checked(db, None, AnalysisMissing)
        else if ev.error.QuotaExceeded? && QuotaState(c, db, ev.origin, now).remaining <= 0 then
          Checked(db, None, LimitReached(e))
        else
          var cleared := if ev.error.QuotaExceeded? then SetError(db, e, NoError) else db;
          if ev.error.Failed? then Checked(cleared, None, Errored(e, ev.error.text))
          else Checked(cleared, if ev.started.None? then Some(e) else None, Processing(e))
  }

  /** /result: read only, over finished events. */
  function Result(db: Db, to: string, live: bool): Answer {
    var found := Newest(db.events, to, NoCursor, true, db.nextId);
    if found.None? then Nothing(live)
    else if db.events[found.value].analysis.value in db.analyses
    then Analyzed(found.value, db.events[found.value].analysis.value)
    else AnalysisMissing
  }

  /** Ids below the counter, so that the newest-event scan sees every document. */
  predicate Fresh(db: Db) {
    && (forall e :: e in db.events ==> e < db.nextId)
    && (forall a :: a in db.analyses ==> a < db.nextId)
  }

  /** Whatever final answer /check gives without a cursor, /result gives too on the same state. */
  lemma ResultFollowsCheck(c: Config, db: Db, to: string, live: bool, now: Instant)
    requires Fresh(db)
    ensures var answer := Check(c, db, to, NoCursor, live, now).answer;
            answer.Analyzed? || answer.Waiting? || answer.AddressExpired? || answer.AnalysisMissing?
            ==> Result(db, to, live) == answer
  {
    var newest := Newest(db.events, to, NoCursor, false, db.nextId);
    var linked := Newest(db.events, to, NoCursor, true, db.nextId);
    if newest.Some? && db.events[newest.value].analysis.Some? {
      assert Matches(newest.value, db.events[newest.value], to, NoCursor, true);
    }
    if linked.Some? {
      assert Matches(linked.value, db.events[linked.value], to, NoCursor, false);
    }
  }

  /** A quota refusal is retried exactly when the gate would now let the event through. */
  lemma RefusalIsRetriedExactlyWhenGateIsOpen(c: Config, db: Db, to: string, after: Cursor, live: bool, now: Instant,
                                              e: Id)
    requires Fresh(db) && !after.Malformed?
    requires Newest(db.events, to, after, false, db.nextId) == Some(e)
    requires db.events[e].analysis.None? && db.events[e].error.QuotaExceeded? && db.events[e].started.None?
    ensures var r := Check(c, db, to, after, live, now);
            if ConsumeQuota(c, db, db.events[e].origin, now).granted
            then r == Checked(SetError(db, e, NoError), Some(e), Processing(e))
            else r == Checked(db, None, LimitReached(e))
  {
    QuotaStateAnnouncesGate(c, db, db.events[e].origin, now);
  }
}

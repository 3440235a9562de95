/** Who pays for a mail, said over the quota records before and after, and over the charges of whole runs. */
module Payers {
  import opened Prelude
  import opened Calendar
  import opened Quotas
  import opened Store
  import opened Protocol
  import opened Safety

  predicate Named(o: Option<string>, id: string) { o == Some(id) && id != "" }

  predicate Unnamed(o: Option<string>) { o.None? || o == Some("") }

  /** The records differ in that of h alone, and there as one call of the gate makes it differ. */
  ghost predicate OnlyPays(before: map<Holder, Quota>, after: map<Holder, Quota>, h: Holder, default: int, now: Instant,
                           granted: bool)
  {
    && after.Keys == before.Keys
    && (forall x :: x in before && x != h ==> after[x] == before[x])
    && granted == (Remains(before, h, default, now) > 0)
    && (h in before ==> after[h].limit == before[h].limit && ResetKept(before[h], after[h], now))
    && (h in before ==>
          if granted then UsedOf(Some(after[h])) == UsedNow(before[h], now) + 1
          else UsedOf(Some(after[h])) == UsedNow(before[h], now))
  }

  /** A reset time still to come stays; one that has come, or is missing, becomes the next midnight. */
  predicate ResetKept(before: Quota, after: Quota, now: Instant) {
    after.resetAt.Some?
    && if before.resetAt.Some? && before.resetAt.value > now then after.resetAt == before.resetAt
       else Midnight(after.resetAt.value) && now < after.resetAt.value <= now + DAY
  }

  /** What counts against the limit at this instant: nothing once the reset time has come. */
  function UsedNow(q: Quota, now: Instant): int {
    if q.resetAt.Some? && q.resetAt.value > now && q.used.Some? then q.used.value else 0
  }

  /** What the payer has left of the limit in its record, or of the default one. */
  function Remains(holders: map<Holder, Quota>, h: Holder, default: int, now: Instant): int {
    if h !in holders then default
    else (if holders[h].limit.Some? then holders[h].limit.value else default) - UsedNow(holders[h], now)
  }

  /** A mail made with an API key, whose origin names the account as well, is answered for and charged to the key alone;
      one made by an account to the account alone; any other to nobody. */
  lemma PayerExactly(c: Config, db: Db, o: Origin, now: Instant)
    ensures forall key | Named(o.key, key) ::
              OnlyPays(db.holders, ConsumeQuota(c, db, o, now).db.holders, ApiKey(key), c.apiLimit, now,
                       ConsumeQuota(c, db, o, now).granted)
    ensures forall owner | Unnamed(o.key) && Named(o.owner, owner) ::
              OnlyPays(db.holders, ConsumeQuota(c, db, o, now).db.holders, User(owner), c.userLimit, now,
                       ConsumeQuota(c, db, o, now).granted)
    ensures Unnamed(o.key) && Unnamed(o.owner) ==>
              && ConsumeQuota(c, db, o, now).db == db
              && (ConsumeQuota(c, db, o, now).granted <==> AnonymousUsage(db, o, now) < c.anonLimit)
  {
    TomorrowFormsAgree(now);
  }

  /** The report of what remains names the same payer. */
  lemma ReportIsThePayers(c: Config, db: Db, o: Origin, now: Instant)
    ensures forall key | Named(o.key, key) ::
              QuotaState(c, db, o, now).remaining == Max(0, Remains(db.holders, ApiKey(key), c.apiLimit, now))
    ensures forall owner | Unnamed(o.key) && Named(o.owner, owner) ::
              QuotaState(c, db, o, now).remaining == Max(0, Remains(db.holders, User(owner), c.userLimit, now))
    ensures Unnamed(o.key) && Unnamed(o.owner) ==>
              QuotaState(c, db, o, now).remaining == Max(0, c.anonLimit - AnonymousUsage(db, o, now))
    ensures var r := QuotaState(c, db, o, now); r.remaining == Max(0, r.limit - r.used)
    ensures var r := QuotaState(c, db, o, now); now < r.resetAt
  {
    TomorrowFormsAgree(now);
  }

  /** In every run, whoever is charged for a mail is its key when it has one, else its account; no other mail is charged
      to anybody. */
  lemma ChargesNameThePayer(c: Config, s: State, steps: seq<Step>, ch: Charge)
    requires Init(s) && ch in Run(c, s, steps).log.charges
    ensures ch.event in Run(c, s, steps).db.events
    ensures var o := Run(c, s, steps).db.events[ch.event].origin;
            && (forall key | Named(o.key, key) :: ch.holder == ApiKey(key))
            && (forall owner | Unnamed(o.key) && Named(o.owner, owner) :: ch.holder == User(owner))
            && !(Unnamed(o.key) && Unnamed(o.owner))
  {
    EachMailAtMostOnce(c, s, steps, ch.event, ch.holder);
  }

  /** A step changes the stored count or reset time only of the payer of the mail it works on. */
  lemma StepPaysForItsMail(c: Config, s: State, w: nat, h: Holder)
    requires Inv(s) && w < |s.workers| && h in s.db.holders && WorkOn(c, s, w).db.holders[h] != s.db.holders[h]
    ensures !s.workers[w].Idle? && s.workers[w].e in s.db.events
    ensures var o := s.db.events[s.workers[w].e].origin;
            && (forall key | Named(o.key, key) :: h == ApiKey(key))
            && (forall owner | Unnamed(o.key) && Named(o.owner, owner) :: h == User(owner))
            && !(Unnamed(o.key) && Unnamed(o.owner))
  {
    assert WorkerOk(s.db, s.log, s.workers[w], w);
    if !WritesHolder(s.workers[w]) { OtherWorkLeavesHolders(c, s, w); }
  }
}

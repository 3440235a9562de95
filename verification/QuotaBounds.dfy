/**
 How far racing workers can overrun a daily limit. Reading the quota, writing a reset and incrementing the count are
 three operations, so a count can pass its limit, but by no more than the number of workers less one.
 */
module QuotaBounds {
  import opened Prelude
  import opened Calendar
  import opened Quotas
  import opened Store
  import opened Protocol
  import opened Safety

  type Holders = map<Holder, Quota>

  function Limit(c: Config, hs: Holders, h: Holder): int { LimitOf(Lookup(hs, h), DefaultLimit(c, h)) }

  function Used(hs: Holders, h: Holder): int { UsedOf(Lookup(hs, h)) }

  /** Workers that have read a count under the limit of h and have not charged it yet. */
  function Pending(ws: seq<Pc>, h: Holder): set<nat> {
    set w: nat | w < |ws| && ws[w].AtCharge? && HolderOf(ws[w].o) == h
  }

  ghost predicate Bounded(c: Config, hs: Holders, ws: seq<Pc>, h: Holder) {
    0 <= Used(hs, h) && Used(hs, h) + |Pending(ws, h)| <= Ceiling(Limit(c, hs, h), |ws|)
  }

  /** A worker about to write a reset holds the limit in force. */
  ghost predicate KnowsLimit(c: Config, hs: Holders, pc: Pc) {
    pc.AtReset? ==> pc.limit == Limit(c, hs, HolderOf(pc.o))
  }

  ghost predicate QuotaInv(c: Config, hs: Holders, ws: seq<Pc>) {
    && |ws| >= 1
    && (forall h {:trigger Bounded(c, hs, ws, h)} :: h in hs ==> Bounded(c, hs, ws, h))
    && (forall w :: 0 <= w < |ws| ==> KnowsLimit(c, hs, ws[w]))
  }

  ghost predicate QuotaHolds(c: Config, s: State) { QuotaInv(c, s.db.holders, s.workers) }

  lemma PendingFits(ws: seq<Pc>, h: Holder)
    ensures |Pending(ws, h)| <= |ws|
  {
    SubsetCardinality(Pending(ws, h), Indices(|ws|));
  }

  /** What moving one worker does to the pending charges. */
  lemma PendingMoves(ws: seq<Pc>, w: nat, pc: Pc, h: Holder)
    requires w < |ws|
    ensures var joins := pc.AtCharge? && HolderOf(pc.o) == h;
            Pending(ws[w := pc], h) == (if joins then Pending(ws, h) + {w} else Pending(ws, h) - {w})
  {}

  /** A worker that moves without joining the pending charges. */
  lemma MoveKeeps(c: Config, hs: Holders, ws: seq<Pc>, w: nat, pc: Pc)
    requires QuotaInv(c, hs, ws) && w < |ws| && !pc.AtCharge? && KnowsLimit(c, hs, pc)
    ensures QuotaInv(c, hs, ws[w := pc])
  {
    forall h | h in hs ensures Bounded(c, hs, ws[w := pc], h) {
      assert Bounded(c, hs, ws, h);
      PendingMoves(ws, w, pc, h);
      SubsetCardinality(Pending(ws[w := pc], h), Pending(ws, h));
    }
  }

  /** A worker that has just seen a count under the limit joins: whatever the others hold, the ceiling is met. */
  lemma JoinKeeps(c: Config, hs: Holders, ws: seq<Pc>, w: nat, pc: Pc)
    requires QuotaInv(c, hs, ws) && w < |ws| && pc.AtCharge?
    requires HolderOf(pc.o) in hs ==> Used(hs, HolderOf(pc.o)) < Limit(c, hs, HolderOf(pc.o))
    ensures QuotaInv(c, hs, ws[w := pc])
  {
    forall h | h in hs ensures Bounded(c, hs, ws[w := pc], h) {
      assert Bounded(c, hs, ws, h);
      PendingMoves(ws, w, pc, h);
      if HolderOf(pc.o) == h {
        PendingFits(ws[w := pc], h);
      } else {
        SubsetCardinality(Pending(ws[w := pc], h), Pending(ws, h));
      }
    }
  }

  /** Writing a reset brings the count to zero, however many charges are pending. */
  lemma ResetWriteKeeps(c: Config, hs: Holders, ws: seq<Pc>, h: Holder, now: Instant)
    requires QuotaInv(c, hs, ws) && h in hs
    ensures QuotaInv(c, hs[h := WriteReset(Some(hs[h]), now).value], ws)
    ensures Used(hs[h := WriteReset(Some(hs[h]), now).value], h) == 0
    ensures Limit(c, hs[h := WriteReset(Some(hs[h]), now).value], h) == Limit(c, hs, h)
  {
    var hs' := hs[h := WriteReset(Some(hs[h]), now).value];
    forall g | g in hs' ensures Bounded(c, hs', ws, g) {
      assert Bounded(c, hs, ws, g);
    }
    forall w | 0 <= w < |ws| ensures KnowsLimit(c, hs', ws[w]) {
      assert KnowsLimit(c, hs, ws[w]);
    }
  }

  /** A charge turns one pending charge into one counted use. */
  lemma ChargeKeeps(c: Config, hs: Holders, ws: seq<Pc>, w: nat, pc: Pc)
    requires QuotaInv(c, hs, ws) && w < |ws| && ws[w].AtCharge? && pc.Analyzing?
    requires HolderOf(ws[w].o) in hs
    ensures var h := HolderOf(ws[w].o);
            QuotaInv(c, hs[h := WriteCharge(Some(hs[h])).value], ws[w := pc])
  {
    var h := HolderOf(ws[w].o);
    var hs' := hs[h := WriteCharge(Some(hs[h])).value];
    var ws' := ws[w := pc];
    forall g | g in hs' ensures Bounded(c, hs', ws', g) {
      assert Bounded(c, hs, ws, g);
      PendingMoves(ws, w, pc, g);
      SubsetCardinality(Pending(ws', g), Pending(ws, g));
      assert g == h ==> w in Pending(ws, g);
    }
    forall i | 0 <= i < |ws'| ensures KnowsLimit(c, hs', ws'[i]) {
      assert KnowsLimit(c, hs, ws[i]);
    }
  }

  /** A new holder: no mail names it, so nobody is pending on it or about to reset it. */
  lemma RegisterKeeps(c: Config, s: State, h: Holder, q: Quota)
    requires QuotaInv(c, s.db.holders, s.workers) && Inv(s)
    requires NewHolder(q) && h !in s.db.holders
    requires forall e | e in s.db.events :: HolderOf(s.db.events[e].origin) != h
    ensures QuotaInv(c, s.db.holders[h := q], s.workers)
  {
    var hs, hs', ws := s.db.holders, s.db.holders[h := q], s.workers;
    forall w | 0 <= w < |ws| ensures KnowsLimit(c, hs', ws[w]) && (ws[w].AtCharge? ==> HolderOf(ws[w].o) != h) {
      assert WorkerOk(s.db, s.log, ws[w], w);
      assert KnowsLimit(c, hs, ws[w]);
    }
    assert Pending(ws, h) == {};
    forall g | g in hs' ensures Bounded(c, hs', ws, g) {
      assert g != h ==> Bounded(c, hs, ws, g);
    }
  }

  lemma ChargeStepKeeps(c: Config, s: State, w: nat)
    requires QuotaHolds(c, s) && w < |s.workers| && s.workers[w].AtCharge?
    ensures QuotaHolds(c, WorkOn(c, s, w))
  {
    var pc' := WorkOn(c, s, w).workers[w];
    var h := HolderOf(s.workers[w].o);
    var hs := s.db.holders;
    if h in hs {
      assert Bounded(c, hs, s.workers, h);
      ChargeKeeps(c, hs, s.workers, w, pc');
    } else {
      MoveKeeps(c, hs, s.workers, w, pc');
    }
  }

  /** Reading the quota, and writing the reset. */
  lemma DecideKeeps(c: Config, s: State, w: nat)
    requires QuotaHolds(c, s) && Inv(s)
    requires w < |s.workers| && (s.workers[w].AtGate? || s.workers[w].AtReset?)
    ensures QuotaHolds(c, WorkOn(c, s, w))
  {
    var t := WorkOn(c, s, w);
    var pc := s.workers[w];
    var pc' := t.workers[w];
    var h := HolderOf(pc.o);
    var hs := s.db.holders;
    assert KnowsLimit(c, hs, pc);
    if h in hs { assert Bounded(c, hs, s.workers, h); }
    if pc.AtReset? && h in hs { ResetWriteKeeps(c, hs, s.workers, h, pc.since); }
    if pc'.AtCharge? {
      JoinKeeps(c, t.db.holders, s.workers, w, pc');
    } else {
      MoveKeeps(c, t.db.holders, s.workers, w, pc');
    }
  }

  lemma OtherWorkKeeps(c: Config, s: State, w: nat)
    requires QuotaHolds(c, s) && w < |s.workers|
    requires !s.workers[w].AtGate? && !s.workers[w].AtReset? && !s.workers[w].AtCharge?
    ensures QuotaHolds(c, WorkOn(c, s, w))
  {
    var t := WorkOn(c, s, w);
    MoveKeeps(c, s.db.holders, s.workers, w, t.workers[w]);
    assert t.workers == s.workers[w := t.workers[w]];
  }

  lemma StepKeepsQuota(c: Config, s: State, step: Step)
    requires QuotaHolds(c, s) && Inv(s)
    ensures QuotaHolds(c, Apply(c, s, step))
  {
    match step
    case Work(w) =>
      if w < |s.workers| {
        if s.workers[w].AtCharge? {
          ChargeStepKeeps(c, s, w);
        } else if s.workers[w].AtGate? || s.workers[w].AtReset? {
          DecideKeeps(c, s, w);
        } else {
          OtherWorkKeeps(c, s, w);
        }
      }
    case Take(w, e) =>
      if w < |s.workers| && e in s.db.events {
        MoveKeeps(c, s.db.holders, s.workers, w, Fetched(e, s.db.events[e].origin));
      }
    case Raise(w, text) =>
      if w < |s.workers| && InTry(s.workers[w]) {
        var pc := s.workers[w];
        MoveKeeps(c, s.db.holders, s.workers, w, AtFail(pc.e, pc.o, Holding(pc), text));
      }
    case Crash(w) => if w < |s.workers| { MoveKeeps(c, s.db.holders, s.workers, w, Idle); }
    case Register(h, q) => if Apply(c, s, step) != s { RegisterKeeps(c, s, h, q); }
    case _ => OutsideStep(c, s, step);
  }

  lemma {:induction false} RunKeepsQuota(c: Config, s: State, steps: seq<Step>)
    requires QuotaHolds(c, s) && Inv(s)
    ensures QuotaHolds(c, Run(c, s, steps))
    decreases |steps|
  {
    if steps != [] {
      StepKeepsQuota(c, s, steps[0]);
      StepKeeps(c, s, steps[0]);
      RunKeepsQuota(c, Apply(c, s, steps[0]), steps[1..]);
    }
  }

  lemma InitBounded(c: Config, s: State)
    requires Init(s)
    ensures QuotaHolds(c, s)
  {
    forall g | g in s.db.holders ensures Bounded(c, s.db.holders, s.workers, g) {
      assert Pending(s.workers, g) == {};
    }
  }

  /** Whatever the interleaving, resets and clock moves, a stored count never passes the limit by W or more. */
  lemma DailyUsedBounded(c: Config, s: State, steps: seq<Step>, h: Holder)
    requires Init(s) && h in Run(c, s, steps).db.holders
    ensures var t := Run(c, s, steps);
            0 <= Used(t.db.holders, h) <= Ceiling(Limit(c, t.db.holders, h), |s.workers|)
  {
    InitHolds(s);
    InitBounded(c, s);
    RunKeepsQuota(c, s, steps);
    WorkersConstant(c, s, steps);
    var t := Run(c, s, steps);
    assert Bounded(c, t.db.holders, t.workers, h);
  }
}

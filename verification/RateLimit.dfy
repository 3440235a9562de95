/**
 The fixed-window rate limiter: one Redis counter per caller, given a time to live after its first hit. INCR and EXPIRE
 are separate commands, so a counter can be left without an expiry and repaired by a later hit.
 */
module RateLimit {
  import opened Prelude
  import opened Calendar

  /** The key: absent, or a count that disappears at `expires`, if it ever does. */
  datatype Cell = Absent | Counter(count: nat, expires: Option<Instant>)

  /** What Redis shows at an instant: a counter whose time is over is absent. */
  function Seen(cell: Cell, now: Instant): Cell {
    if cell.Counter? && cell.expires.Some? && cell.expires.value <= now then Absent else cell
  }

  function Incr(cell: Cell, now: Instant): (r: Cell)
    ensures r.Counter?
  {
    match Seen(cell, now)
    case Absent => Counter(1, None)
    case Counter(n, e) => Counter(n + 1, e)
  }

  /** TTL: -1 when the counter has no expiry. */
  function Ttl(cell: Cell, now: Instant): int
    requires cell.Counter?
  {
    if cell.expires.None? then -1 else cell.expires.value - now
  }

  /** EXPIRE does nothing to a key that is gone. */
  function Expire(cell: Cell, now: Instant, window: nat): Cell {
    if Seen(cell, now).Absent? then cell else Counter(cell.count, Some(now + window))
  }

  /** The hit that must set the expiry: the first of a counter, or any that finds no expiry. */
  predicate MustExpire(used: nat, ttl: int) { used == 1 || ttl < 0 }

  /** How the two commands fare: the first is not applied, its answer is lost, EXPIRE is not applied, or all is well. */
  datatype Fault = NotApplied | AnswerLost | ExpireFails | NoFault

  datatype Verdict = Verdict(allowed: bool, used: nat, retryAfter: int)

  /** The key after one call. */
  function HitCell(cell: Cell, window: nat, now: Instant, fault: Fault): Cell {
    if fault.NotApplied? then cell
    else
      var counted := Incr(cell, now);
      if fault.NoFault? && MustExpire(counted.count, Ttl(counted, now)) then Expire(counted, now, window) else counted
  }

  /** The caller's answer: an unanswered count lets the request through. */
  function HitVerdict(cell: Cell, limit: int, window: nat, now: Instant, fault: Fault): Verdict {
    if fault.NotApplied? || fault.AnswerLost? then Verdict(true, 0, 0)
    else
      var counted := Incr(cell, now);
      var ttl := Ttl(counted, now);
      Verdict(counted.count <= limit, counted.count, if MustExpire(counted.count, ttl) then window else ttl)
  }

  /** The calling code over one key. */
  class Limiter {
    var cell: Cell

    constructor ()
      ensures cell == Absent
    {
      cell := Absent;
    }

    method Hit(limit: int, window: nat, now: Instant, fault: Fault) returns (v: Verdict)
      modifies this
      ensures cell == HitCell(old(cell), window, now, fault)
      ensures v == HitVerdict(old(cell), limit, window, now, fault)
    {
      if fault.NotApplied? {
        return Verdict(true, 0, 0);
      }
      cell := Incr(cell, now);
      if fault.AnswerLost? {
        return Verdict(true, 0, 0);
      }
      var used := cell.count;
      var ttl := Ttl(cell, now);
      if MustExpire(used, ttl) {
        if fault.NoFault? {
          cell := Expire(cell, now, window);
        }
        ttl := window;
      }
      v := Verdict(used <= limit, used, ttl);
    }
  }

  // ----- Interleaved runs over one key -----

  /** An allowed hit: when, in which generation of the counter, and its count there. */
  datatype Pass = Pass(time: Instant, generation: nat, used: nat)

  /** `pending` callers have decided to send EXPIRE and have not yet sent it. `starts` records, for the proof, when each
      generation of the counter began. */
  datatype State = State(cell: Cell, clock: Instant, pending: nat, starts: seq<Instant>, passes: seq<Pass>)

  datatype Step =
    | Tick(to: Instant)
    | SendIncr(answered: bool)     // the answer may be lost: the caller then lets the request through uncounted
    | SendExpire(applied: bool)    // not applied: the command failed or the caller died

  function Apply(s: State, step: Step, limit: int, window: nat): State {
    match step
    case Tick(to) => if s.clock <= to then s.(clock := to) else s
    case SendIncr(answered) =>
      var counted := Incr(s.cell, s.clock);
      var starts := if Seen(s.cell, s.clock).Absent? then s.starts + [s.clock] else s.starts;
      var passes := if answered && counted.count <= limit && starts != []
                    then s.passes + [Pass(s.clock, |starts| - 1, counted.count)] else s.passes;
      var pending := if answered && MustExpire(counted.count, Ttl(counted, s.clock)) then s.pending + 1 else s.pending;
      State(counted, s.clock, pending, starts, passes)
    case SendExpire(applied) =>
      if s.pending == 0 then s
      else s.(pending := s.pending - 1, cell := if applied then Expire(s.cell, s.clock, window) else s.cell)
  }

  function Run(s: State, steps: seq<Step>, limit: int, window: nat): State
    decreases |steps|
  {
    if steps == [] then s else Run(Apply(s, steps[0], limit, window), steps[1..], limit, window)
  }

  function Start(clock: Instant): State { State(Absent, clock, 0, [], []) }

  /** Generations start at least a window apart, and the running counter outlives its own window. */
  ghost predicate Spaced(s: State, window: nat) {
    && (forall i :: 0 <= i < |s.starts| ==> s.starts[i] <= s.clock)
    && (forall i, j :: 0 <= i < j < |s.starts| ==> s.starts[i] + window <= s.starts[j])
    && (s.cell.Counter? <==> s.starts != [])
    && (s.cell.Counter? && s.cell.expires.Some? ==> s.starts[|s.starts| - 1] + window <= s.cell.expires.value)
  }

  /** A pass lies within its generation; in the running one, before its expiry and up to its count. */
  ghost predicate PassOk(s: State, limit: int, p: Pass) {
    && p.generation < |s.starts| && 1 <= p.used <= limit
    && s.starts[p.generation] <= p.time <= s.clock
    && (p.generation + 1 < |s.starts| ==> p.time < s.starts[p.generation + 1])
    && (p.generation + 1 == |s.starts| ==>
          && s.cell.Counter? && p.used <= s.cell.count
          && (s.cell.expires.Some? ==> p.time < s.cell.expires.value))
  }

  /** No generation repeats a count. */
  ghost predicate Distinct(passes: seq<Pass>) {
    forall i, j :: 0 <= i < j < |passes| && passes[i].generation == passes[j].generation ==>
      passes[i].used != passes[j].used
  }

  ghost predicate Inv(s: State, limit: int, window: nat) {
    && Spaced(s, window) && Distinct(s.passes)
    && (forall i :: 0 <= i < |s.passes| ==> PassOk(s, limit, s.passes[i]))
  }

  lemma TickKeeps(s: State, to: Instant, limit: int, window: nat)
    requires Inv(s, limit, window) && s.clock <= to
    ensures Inv(s.(clock := to), limit, window)
  {
    forall i | 0 <= i < |s.passes| ensures PassOk(s.(clock := to), limit, s.passes[i]) {
      assert PassOk(s, limit, s.passes[i]);
    }
  }

  lemma ExpireKeeps(s: State, applied: bool, limit: int, window: nat)
    requires Inv(s, limit, window) && window >= 1
    ensures Inv(Apply(s, SendExpire(applied), limit, window), limit, window)
  {
    var t := Apply(s, SendExpire(applied), limit, window);
    forall i | 0 <= i < |s.passes| ensures PassOk(t, limit, s.passes[i]) {
      assert PassOk(s, limit, s.passes[i]);
    }
  }

  /** The old passes after an INCR: a new generation starts only when the last one's time is over. */
  lemma IncrKeepsPast(s: State, answered: bool, limit: int, window: nat, i: nat)
    requires Inv(s, limit, window) && i < |s.passes|
    ensures PassOk(Apply(s, SendIncr(answered), limit, window), limit, s.passes[i])
    ensures s.passes[i].generation == |Apply(s, SendIncr(answered), limit, window).starts| - 1
            ==> s.passes[i].used < Apply(s, SendIncr(answered), limit, window).cell.count
  {
    assert PassOk(s, limit, s.passes[i]);
  }

  lemma IncrKeepsSpacing(s: State, answered: bool, limit: int, window: nat)
    requires Spaced(s, window)
    ensures Spaced(Apply(s, SendIncr(answered), limit, window), window)
  {}

  lemma IncrKeeps(s: State, answered: bool, limit: int, window: nat)
    requires Inv(s, limit, window)
    ensures Inv(Apply(s, SendIncr(answered), limit, window), limit, window)
  {
    var t := Apply(s, SendIncr(answered), limit, window);
    IncrKeepsSpacing(s, answered, limit, window);
    forall i | 0 <= i < |s.passes|
      ensures PassOk(t, limit, s.passes[i])
      ensures s.passes[i].generation == |t.starts| - 1 ==> s.passes[i].used < t.cell.count
    {
      IncrKeepsPast(s, answered, limit, window, i);
    }
  }

  lemma {:induction false} RunKeeps(s: State, steps: seq<Step>, limit: int, window: nat)
    requires Inv(s, limit, window) && window >= 1
    ensures Inv(Run(s, steps, limit, window), limit, window)
    decreases |steps|
  {
    if steps != [] {
      match steps[0] {
        case Tick(to) => if s.clock <= to { TickKeeps(s, to, limit, window); }
        case SendIncr(answered) => IncrKeeps(s, answered, limit, window);
        case SendExpire(applied) => ExpireKeeps(s, applied, limit, window);
      }
      RunKeeps(Apply(s, steps[0], limit, window), steps[1..], limit, window);
    }
  }

  /** The allowed hits in a closed interval of one window length. */
  function PassesIn(passes: seq<Pass>, from: Instant, window: nat): set<nat> {
    set i: nat | i < |passes| && from <= passes[i].time <= from + window
  }

  /** Passes within one window length fall into two neighbouring generations. */
  lemma TwoGenerations(s: State, limit: int, window: nat, from: Instant, i: nat, j: nat)
    requires Inv(s, limit, window)
    requires i in PassesIn(s.passes, from, window) && j in PassesIn(s.passes, from, window)
    ensures s.passes[j].generation <= s.passes[i].generation + 1
  {
    assert PassOk(s, limit, s.passes[i]) && PassOk(s, limit, s.passes[j]);
  }

  lemma OldestIn(passes: seq<Pass>, some: set<nat>) returns (first: nat)
    requires some != {} && (forall i :: i in some ==> i < |passes|)
    ensures first in some
    ensures forall i :: i in some ==> passes[first].generation <= passes[i].generation
  {
    first :| first in some;
    var rest := some - {first};
    assert forall i :: i in some ==> i == first || i in rest;
    if rest != {} {
      var other := OldestIn(passes, rest);
      if passes[other].generation < passes[first].generation { first := other; }
    }
  }

  /** The place of a pass among those of two neighbouring generations, numbered through. */
  function Place(p: Pass, first: nat, limit: nat): int { p.used - 1 + (if p.generation == first then 0 else limit) }

  /** No two passes of the two generations share a place. */
  lemma PlacesDiffer(s: State, limit: nat, window: nat, g: nat, i: nat, j: nat)
    requires Inv(s, limit, window) && i < j < |s.passes|
    requires g <= s.passes[i].generation <= g + 1 && g <= s.passes[j].generation <= g + 1
    ensures Place(s.passes[i], g, limit) != Place(s.passes[j], g, limit)
  {
    var p, q := s.passes[i], s.passes[j];
    assert PassOk(s, limit, p) && PassOk(s, limit, q);
    assert p.generation == q.generation ==> p.used != q.used;
  }

  lemma PlaceFits(s: State, limit: nat, window: nat, from: Instant, first: nat, i: nat)
    requires Inv(s, limit, window)
    requires first in PassesIn(s.passes, from, window) && i in PassesIn(s.passes, from, window)
    requires s.passes[first].generation <= s.passes[i].generation
    ensures s.passes[i].generation <= s.passes[first].generation + 1
    ensures 0 <= Place(s.passes[i], s.passes[first].generation, limit) < 2 * limit
  {
    TwoGenerations(s, limit, window, from, first, i);
    assert PassOk(s, limit, s.passes[i]);
  }

  /** Whatever the callers, faults and crashes, no interval of one window holds more than twice the limit. */
  lemma SlidingBound(clock: Instant, steps: seq<Step>, limit: nat, window: nat, from: Instant)
    requires window >= 1
    ensures |PassesIn(Run(Start(clock), steps, limit, window).passes, from, window)| <= 2 * limit
  {
    RunKeeps(Start(clock), steps, limit, window);
    PassesBounded(Run(Start(clock), steps, limit, window), limit, window, from);
  }

  lemma PassesBounded(s: State, limit: nat, window: nat, from: Instant)
    requires Inv(s, limit, window)
    ensures |PassesIn(s.passes, from, window)| <= 2 * limit
  {
    var some := PassesIn(s.passes, from, window);
    if some != {} {
      var first := OldestIn(s.passes, some);
      var g := s.passes[first].generation;
      var place := map i | i in some :: Place(s.passes[i], g, limit);
      AllPlaced(s, limit, window, from, first);
      assert forall i :: i in some ==> place[i] in Indices(2 * limit);
      InjectionBound(some, place, Indices(2 * limit));
    }
  }

  /** Counting from the oldest pass of the interval, each pass has its own place below twice the limit. */
  lemma AllPlaced(s: State, limit: nat, window: nat, from: Instant, first: nat)
    requires Inv(s, limit, window) && first in PassesIn(s.passes, from, window)
    requires forall i :: i in PassesIn(s.passes, from, window) ==>
               s.passes[first].generation <= s.passes[i].generation
    ensures var g := s.passes[first].generation;
            var some := PassesIn(s.passes, from, window);
            && (forall i :: i in some ==> 0 <= Place(s.passes[i], g, limit) < 2 * limit)
            && (forall i, j :: i in some && j in some && i != j ==>
                                 Place(s.passes[i], g, limit) != Place(s.passes[j], g, limit))
  {
    var g := s.passes[first].generation;
    var some := PassesIn(s.passes, from, window);
    forall i | i in some
      ensures s.passes[i].generation <= g + 1 && 0 <= Place(s.passes[i], g, limit) < 2 * limit
    {
      PlaceFits(s, limit, window, from, first, i);
    }
    forall i, j | i in some && j in some && i < j
      ensures Place(s.passes[i], g, limit) != Place(s.passes[j], g, limit)
    {
      PlacesDiffer(s, limit, window, g, i, j);
    }
  }

  /** One call of the limiter is the two commands of the machine with nothing between them. */
  function StepsOf(fault: Fault): seq<Step> {
    match fault
    case NotApplied => []
    case AnswerLost => [SendIncr(false)]
    case ExpireFails => [SendIncr(true), SendExpire(false)]
    case NoFault => [SendIncr(true), SendExpire(true)]
  }

  lemma HitIsTwoCommands(s: State, limit: int, window: nat, fault: Fault)
    requires Spaced(s, window) && s.pending == 0
    ensures var t := Run(s, StepsOf(fault), limit, window);
            var v := HitVerdict(s.cell, limit, window, s.clock, fault);
            && t.cell == HitCell(s.cell, window, s.clock, fault) && t.pending == 0 && t.clock == s.clock
            && (if v.allowed && v.used > 0
                then t.starts != [] && t.passes == s.passes + [Pass(s.clock, |t.starts| - 1, v.used)]
                else t.passes == s.passes)
  {
    if !fault.NotApplied? {
      var s1 := Apply(s, StepsOf(fault)[0], limit, window);
      assert Run(s, StepsOf(fault), limit, window) == Run(s1, StepsOf(fault)[1..], limit, window);
      if !fault.AnswerLost? {
        var s2 := Apply(s1, StepsOf(fault)[1], limit, window);
        assert Run(s1, StepsOf(fault)[1..], limit, window) == Run(s2, [], limit, window);
      }
    }
  }

  lemma {:induction false} RunSplits(s: State, first: seq<Step>, rest: seq<Step>, limit: int, window: nat)
    ensures Run(s, first + rest, limit, window) == Run(Run(s, first, limit, window), rest, limit, window)
    decreases |first|
  {
    if first == [] {
      assert [] + rest == rest;
    } else {
      assert (first + rest)[0] == first[0] && (first + rest)[1..] == first[1..] + rest;
      RunSplits(Apply(s, first[0], limit, window), first[1..], rest, limit, window);
    }
  }

  function Burst(n: nat): seq<Step> { if n == 0 then [] else [SendIncr(true)] + Burst(n - 1) }

  /** n hits at one instant on a running counter, all under the limit. */
  lemma {:induction false} BurstPasses(s: State, n: nat, limit: nat, window: nat)
    requires s.cell.Counter? && s.cell.expires.Some? && s.clock < s.cell.expires.value && s.starts != []
    requires s.cell.count >= 1 && s.cell.count + n <= limit
    ensures var t := Run(s, Burst(n), limit, window);
            && t == s.(cell := Counter(s.cell.count + n, s.cell.expires), passes := t.passes)
            && |t.passes| == |s.passes| + n && t.passes[..|s.passes|] == s.passes
            && (forall i :: |s.passes| <= i < |t.passes| ==> t.passes[i].time == s.clock)
    decreases n
  {
    if n > 0 {
      var s1 := Apply(s, SendIncr(true), limit, window);
      assert Burst(n)[1..] == Burst(n - 1);
      BurstPasses(s1, n - 1, limit, window);
      var t := Run(s1, Burst(n - 1), limit, window);
      assert t.passes[|s.passes|] == t.passes[..|s1.passes|][|s.passes|];
      assert t.passes[..|s.passes|] == t.passes[..|s1.passes|][..|s.passes|];
    }
  }

  /** A full generation: the first hit, its EXPIRE, and the rest of the limit at the same instant. */
  function FullBurst(limit: nat): seq<Step>
    requires limit >= 1
  {
    [SendIncr(true), SendExpire(true)] + Burst(limit - 1)
  }

  lemma FullBurstPasses(s: State, limit: nat, window: nat)
    requires limit >= 1 && window >= 1 && s.pending == 0 && Seen(s.cell, s.clock).Absent?
    ensures var t := Run(s, FullBurst(limit), limit, window);
            && t.cell == Counter(limit, Some(s.clock + window)) && t.clock == s.clock && t.pending == 0
            && |t.passes| == |s.passes| + limit && t.passes[..|s.passes|] == s.passes
            && (forall i :: |s.passes| <= i < |t.passes| ==> t.passes[i].time == s.clock)
  {
    var s1 := Apply(s, SendIncr(true), limit, window);
    var s2 := Apply(s1, SendExpire(true), limit, window);
    var head := [SendIncr(true), SendExpire(true)];
    assert Run(s, head, limit, window) == s2 by {
      assert Run(s, head, limit, window) == Run(s1, head[1..], limit, window);
      assert Run(s1, head[1..], limit, window) == Run(s2, [], limit, window);
    }
    RunSplits(s, head, Burst(limit - 1), limit, window);
    BurstPasses(s2, limit - 1, limit, window);
    var t := Run(s2, Burst(limit - 1), limit, window);
    assert t.passes[|s.passes|] == t.passes[..|s2.passes|][|s.passes|];
    assert t.passes[..|s.passes|] == t.passes[..|s2.passes|][..|s.passes|];
  }

  /** The bound cannot be improved: a full generation at each end of the interval. */
  lemma SlidingBoundIsTight(clock: Instant, limit: nat, window: nat)
    requires limit >= 1 && window >= 1
    ensures var steps := FullBurst(limit) + ([Tick(clock + window)] + FullBurst(limit));
            |PassesIn(Run(Start(clock), steps, limit, window).passes, clock, window)| == 2 * limit
  {
    var s := Start(clock);
    var wait := [Tick(clock + window)];
    FullBurstPasses(s, limit, window);
    var s1 := Run(s, FullBurst(limit), limit, window);
    var s2 := Apply(s1, Tick(clock + window), limit, window);
    assert Run(s1, wait, limit, window) == Run(s2, [], limit, window);
    FullBurstPasses(s2, limit, window);
    RunSplits(s, FullBurst(limit), wait + FullBurst(limit), limit, window);
    RunSplits(s1, wait, FullBurst(limit), limit, window);
    var t := Run(s2, FullBurst(limit), limit, window);
    forall i: nat | i < |t.passes| ensures clock <= t.passes[i].time <= clock + window {
      if i < limit { assert t.passes[i] == t.passes[..limit][i]; }
    }
    assert PassesIn(t.passes, clock, window) == Indices(2 * limit);
  }

  /** A refused caller is told exactly how long to wait: with nobody else calling, a later hit is let through exactly at
      or after that time. */
  lemma RetryAfterIsExact(cell: Cell, limit: nat, window: nat, now: Instant, later: Instant)
    requires limit >= 1 && window >= 1 && now <= later
    requires !HitVerdict(cell, limit, window, now, NoFault).allowed
    ensures var v := HitVerdict(cell, limit, window, now, NoFault);
            && v.retryAfter > 0
            && (HitVerdict(HitCell(cell, window, now, NoFault), limit, window, later, NoFault).allowed
                <==> later >= now + v.retryAfter)
  {}

  /** A call that cannot count lets the request through; one that counts lets through the hits up to the limit. */
  lemma VerdictIs(cell: Cell, limit: int, window: nat, now: Instant, fault: Fault)
    ensures var v := HitVerdict(cell, limit, window, now, fault);
            && (fault.NotApplied? || fault.AnswerLost? ==> v.allowed && v.used == 0 && v.retryAfter == 0)
            && (fault.ExpireFails? || fault.NoFault? ==>
                  && v.used == (if Seen(cell, now).Counter? then cell.count + 1 else 1)
                  && (v.allowed <==> v.used <= limit))
  {}

  /** A counter left without an expiry gets one from the next hit whose EXPIRE goes through. */
  lemma LostExpiryIsRepaired(cell: Cell, now: Instant, window: nat)
    requires window >= 1
    ensures var after := HitCell(cell, window, now, NoFault);
            after.Counter? && after.expires.Some? && after.expires.value > now
  {}
}

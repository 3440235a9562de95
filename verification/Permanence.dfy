/** What a caller of /check and /result can rely on over time: reports are there, stay, and only move forward. */
module Permanence {
  import opened Prelude
  import opened Calendar
  import opened Store
  import opened Protocol
  import opened Safety

  /** Every link of s is in t unchanged, with its report. */
  ghost predicate LinksKept(s: Db, t: Db) {
    forall e {:trigger e in s.events} :: e in s.events ==>
      && e in t.events && t.events[e].to == s.events[e].to
      && (s.events[e].analysis.Some? ==> t.events[e].analysis == s.events[e].analysis)
  }

  /** Only the link step writes a link, and only where there is none. */
  lemma WorkKeepsLinks(c: Config, s: State, w: nat)
    requires Inv(s) && w < |s.workers|
    ensures LinksKept(s.db, WorkOn(c, s, w).db)
  {
    if s.workers[w].AtLink? {
      assert WorkerOk(s.db, s.log, s.workers[w], w);
    } else {
      OtherWorkKeepsLinks(c, s, w);
    }
  }

  lemma OtherWorkKeepsLinks(c: Config, s: State, w: nat)
    requires w < |s.workers| && !s.workers[w].AtLink?
    ensures LinksKept(s.db, WorkOn(c, s, w).db)
  {
    if !WritesEvent(s.workers[w]) { OtherWorkLeavesEvents(c, s, w); }
  }

  /** Taking a mail, raising and dying write nothing. */
  lemma LeavingWritesNothing(c: Config, s: State, step: Step)
    requires step.Take? || step.Raise? || step.Crash?
    ensures Apply(c, s, step).db == s.db
  {}

  lemma OutsideKeepsLinks(c: Config, s: State, step: Step)
    requires Inv(s) && !WorkerStep(step)
    ensures LinksKept(s.db, Apply(c, s, step).db)
  {
    OutsideStep(c, s, step);
  }

  lemma StepKeepsLinks(c: Config, s: State, step: Step)
    requires Inv(s)
    ensures LinksKept(s.db, Apply(c, s, step).db)
  {
    if step.Work? {
      if step.worker < |s.workers| { WorkKeepsLinks(c, s, step.worker); }
    } else if WorkerStep(step) {
      LeavingWritesNothing(c, s, step);
    } else {
      OutsideKeepsLinks(c, s, step);
    }
  }

  lemma {:induction false} RunKeepsLinks(c: Config, s: State, steps: seq<Step>)
    requires Inv(s)
    ensures LinksKept(s.db, Run(c, s, steps).db)
    decreases |steps|
  {
    if steps != [] {
      var t := Apply(c, s, steps[0]);
      StepKeepsLinks(c, s, steps[0]);
      StepKeeps(c, s, steps[0]);
      RunKeepsLinks(c, t, steps[1..]);
    }
  }

  /** The branch that reports a missing analysis is dead in every reachable state. */
  lemma AnalysisNeverMissing(c: Config, s: State, to: string, after: Cursor, live: bool, now: Instant)
    requires Inv(s)
    ensures !Check(c, s.db, to, after, live, now).answer.AnalysisMissing?
    ensures !Result(s.db, to, live).AnalysisMissing?
  {
    var found := Newest(s.db.events, to, after, false, s.db.nextId);
    if found.Some? { assert EventOk(s.db, s.log, found.value); }
    var linked := Newest(s.db.events, to, NoCursor, true, s.db.nextId);
    if linked.Some? { assert EventOk(s.db, s.log, linked.value); }
  }

  lemma AnalyzedIsLinked(c: Config, db: Db, to: string, after: Cursor, live: bool, now: Instant)
    ensures var answer := Check(c, db, to, after, live, now).answer;
            answer.Analyzed? ==> answer.event in db.events && db.events[answer.event].analysis == Some(answer.analysis)
  {}

  /** The answer names this event. */
  predicate About(answer: Answer, e: Id) {
    (answer.Analyzed? || answer.LimitReached? || answer.Errored? || answer.Processing?) && answer.event == e
  }

  lemma LinkedIsAnalyzed(c: Config, db: Db, to: string, after: Cursor, live: bool, now: Instant, e: Id)
    requires e in db.events && db.events[e].analysis.Some?
    ensures var answer := Check(c, db, to, after, live, now).answer;
            About(answer, e) ==> answer == Analyzed(e, db.events[e].analysis.value)
  {}

  /** Once /check reports an event as analyzed, every later answer about it is that same report: no error text, refusal
      or wait takes its place, whatever is written on the event meanwhile. */
  lemma ReportsAgree(c: Config, s: State, steps: seq<Step>, to: string, early: Cursor, late: Cursor,
                     liveThen: bool, liveNow: bool, now: Instant, later: Instant)
    requires Inv(s)
    ensures var first := Check(c, s.db, to, early, liveThen, now).answer;
            var second := Check(c, Run(c, s, steps).db, to, late, liveNow, later).answer;
            && !second.AnalysisMissing?
            && (first.Analyzed? && About(second, first.event) ==> second == first)
  {
    RunKeeps(c, s, steps);
    AnalysisNeverMissing(c, Run(c, s, steps), to, late, liveNow, later);
    AnalyzedIsLinked(c, s.db, to, early, liveThen, now);
    RunKeepsLinks(c, s, steps);
    var first := Check(c, s.db, to, early, liveThen, now).answer;
    if first.Analyzed? {
      LinkedIsAnalyzed(c, Run(c, s, steps).db, to, late, liveNow, later, first.event);
    }
  }

  /** /result never goes back: a finished event stays answered, by itself or by a newer one. */
  lemma ResultMovesForward(c: Config, s: State, steps: seq<Step>, to: string, liveThen: bool, liveNow: bool)
    requires Inv(s)
    ensures var first := Result(s.db, to, liveThen);
            var second := Result(Run(c, s, steps).db, to, liveNow);
            first.Analyzed? ==>
              && second.Analyzed? && first.event <= second.event
              && (first.event == second.event ==> first == second)
  {
    var t := Run(c, s, steps);
    RunKeepsLinks(c, s, steps);
    RunKeeps(c, s, steps);
    AnalysisNeverMissing(c, t, to, NoCursor, liveNow, 0);
    var found := Newest(s.db.events, to, NoCursor, true, s.db.nextId);
    if found.Some? {
      assert Matches(found.value, t.db.events[found.value], to, NoCursor, true);
    }
  }
}

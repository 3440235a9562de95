/** The score ledger: ten points less the sum of the issues, in hundredths of a point. */
module Scoring {

  /** The issue codes, in the order in which the analysis can raise them. */
  datatype Code =
    | SpfMissing | SpfResult(result: string)
    | DkimMissing | DkimBroken | DkimNoKey | DkimInvalid
    | DmarcMissing | DmarcFail | DmarcPolicyNone
    | MessageIdMissing | DateMissing | ListUnsubMissing | EnvelopeMismatch
    | TlsMissing | HeloNotFqdn | RdnsMissing | RdnsNoMatch | HeloRdnsMismatch | DnsblListed
    | NoPlain | LowText | ImageOnly | ImgNoAlt | ShortLinks | NoUnsub
    | SubjectEmpty | SubjectAllCaps | SubjectExclaim
    | UriblListed | SpamRules

  datatype Issue = Issue(code: Code, points: int)

  const FULL: int := 1000

  function Sum(items: seq<Issue>): int {
    if items == [] then 0 else Sum(items[..|items| - 1]) + items[|items| - 1].points
  }

  datatype Grade = Poor | Average | Good | Excellent

  function GradeOf(score: int): Grade {
    if score >= 900 then Excellent else if score >= 700 then Good else if score >= 500 then Average else Poor
  }

  function Rank(g: Grade): int {
    match g case Poor => 0 case Average => 1 case Good => 2 case Excellent => 3
  }

  function Reported(raw: int): int { if raw < 0 then 0 else raw }

  /** A lower raw score never gets a higher reported score or a better grade. */
  lemma ReportIsMonotone(low: int, high: int)
    requires low <= high
    ensures Reported(low) <= Reported(high) && Rank(GradeOf(Reported(low))) <= Rank(GradeOf(Reported(high)))
  {}

  predicate Meets(score: int, threshold: int) { threshold <= score }

  /** A grade is as many steps above the lowest as the score reaches of five, seven and nine points. */
  lemma GradeIs(score: int)
    ensures Rank(GradeOf(score)) == |set t | t in {500, 700, 900} && Meets(score, t)|
  {
    var reached := set t | t in {500, 700, 900} && Meets(score, t);
    assert reached == (if score >= 900 then {500, 700, 900} else if score >= 700 then {500, 700}
                       else if score >= 500 then {500} else {});
  }

  datatype Outcome = Outcome(score: int, grade: Grade, issues: seq<Issue>)

  class Score {
    var raw: int
    var items: seq<Issue>

    /** The running score always agrees with its list of issues. */
    ghost predicate Balanced()
      reads this
    {
      raw == FULL - Sum(items)
    }

    constructor ()
      ensures Balanced() && items == []
    {
      raw := FULL;
      items := [];
    }

    method Minus(points: int, code: Code)
      requires Balanced()
      modifies this
      ensures Balanced() && items == old(items) + [Issue(code, points)]
    {
      raw := raw - points;
      items := items + [Issue(code, points)];
    }

    method Result() returns (r: Outcome)
      requires Balanced()
      ensures r == Outcome(Reported(FULL - Sum(items)), GradeOf(Reported(FULL - Sum(items))), items)
    {
      var score := if raw < 0 then 0 else raw;
      r := Outcome(score, GradeOf(score), items);
    }
  }
}

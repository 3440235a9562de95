/** What holds of every analysis: an exact ledger with a fixed ceiling, and how a score answers to its inputs. */
module Ledger {
  import opened Prelude
  import opened Strings
  import opened Dmarc
  import opened Blacklists
  import opened Scoring
  import opened Analysis

  // ----- The ledger -----

  /** The most stage k can cost. */
  function Most(c: Settings, k: nat): int {
    if k == 0 || k == 11 || k == 20 then 200
    else if k == 1 then 150
    else if k == 2 then 100
    else if k == 6 || k == 8 then 30
    else if k in {5, 10, 15, 17, 19} then 20
    else if k == 21 then Max(0, c.spamCap)
    else 50
  }

  lemma StageBounds(c: Settings, i: Input, k: nat)
    requires k < STAGES
    ensures 0 <= Points(c, i, k) <= Most(c, k)
  {}

  /** An empty subject has no exclamation marks, so the two subject deductions never add up. */
  lemma SubjectBound(c: Settings, i: Input)
    requires SubjectFits(i.content)
    ensures Points(c, i, 18) + Points(c, i, 19) <= 50
  {}

  function MostBefore(c: Settings, n: nat): int { if n == 0 then 0 else MostBefore(c, n - 1) + Most(c, n - 1) }

  lemma {:induction false} DeductedBelow(c: Settings, i: Input, n: nat)
    requires n <= STAGES
    ensures 0 <= Deducted(c, i, n) <= MostBefore(c, n)
  {
    if n > 0 {
      StageBounds(c, i, n - 1);
      DeductedBelow(c, i, n - 1);
    }
  }

  lemma MostOfEighteen(c: Settings)
    ensures MostBefore(c, 18) == 1190
  {
    assert MostBefore(c, 0) == 0;
    assert MostBefore(c, 1) == 200;
    assert MostBefore(c, 2) == 350;
    assert MostBefore(c, 3) == 450;
    assert MostBefore(c, 4) == 500;
    assert MostBefore(c, 5) == 550;
    assert MostBefore(c, 6) == 570;
    assert MostBefore(c, 7) == 600;
    assert MostBefore(c, 8) == 650;
    assert MostBefore(c, 9) == 680;
    assert MostBefore(c, 10) == 730;
    assert MostBefore(c, 11) == 750;
    assert MostBefore(c, 12) == 950;
    assert MostBefore(c, 13) == 1000;
    assert MostBefore(c, 14) == 1050;
    assert MostBefore(c, 15) == 1100;
    assert MostBefore(c, 16) == 1120;
    assert MostBefore(c, 17) == 1170;
    assert MostBefore(c, 18) == 1190;
  }

  /** The deductions never exceed 14.4 points and the SpamAssassin cap. */
  lemma TotalBound(c: Settings, i: Input)
    requires SubjectFits(i.content)
    ensures 0 <= Deducted(c, i, STAGES) <= 1440 + Max(0, c.spamCap)
  {
    DeductedBelow(c, i, 18);
    MostOfEighteen(c);
    SubjectBound(c, i);
    StageBounds(c, i, 18);
    StageBounds(c, i, 19);
    StageBounds(c, i, 20);
    StageBounds(c, i, 21);
    assert Deducted(c, i, 20) == Deducted(c, i, 18) + Points(c, i, 18) + Points(c, i, 19);
    assert Deducted(c, i, 22) == Deducted(c, i, 20) + Points(c, i, 20) + Points(c, i, 21);
  }

  /** The stage a code belongs to. */
  function StageOf(code: Code): nat {
    match code
    case SpfMissing => 0
    case SpfResult(_) => 0
    case DkimMissing => 1
    case DkimBroken => 1
    case DkimNoKey => 1
    case DkimInvalid => 1
    case DmarcMissing => 2
    case DmarcFail => 2
    case DmarcPolicyNone => 2
    case MessageIdMissing => 3
    case DateMissing => 4
    case ListUnsubMissing => 5
    case EnvelopeMismatch => 6
    case TlsMissing => 7
    case HeloNotFqdn => 8
    case RdnsMissing => 9
    case RdnsNoMatch => 9
    case HeloRdnsMismatch => 10
    case DnsblListed => 11
    case NoPlain => 12
    case LowText => 13
    case ImageOnly => 14
    case ImgNoAlt => 15
    case ShortLinks => 16
    case NoUnsub => 17
    case SubjectEmpty => 18
    case SubjectAllCaps => 18
    case SubjectExclaim => 19
    case UriblListed => 20
    case SpamRules => 21
  }

  predicate OfStage(issue: Option<Issue>, k: nat) { issue.Some? ==> StageOf(issue.value.code) == k }

  lemma AuthenticationCodes(i: Input)
    ensures OfStage(SpfIssue(i), 0) && OfStage(DkimIssue(i), 1) && OfStage(DmarcIssue(i), 2)
  {}

  lemma ConnectionCodes(c: Settings, i: Input, k: nat)
    ensures 3 <= k < 7 ==> OfStage(HeaderIssue(i, k), k)
    ensures 7 <= k < 12 ==> OfStage(ConnectionIssue(c, i, k), k)
  {}

  lemma BodyCodes(content: Content, listUnsubscribe: bool, k: nat)
    ensures 12 <= k < 18 ==> OfStage(BodyIssue(content, listUnsubscribe, k), k)
  {}

  lemma ListCodes(c: Settings, i: Input)
    ensures OfStage(UriblIssue(c, i), 20)
  {}

  lemma MessageCodes(c: Settings, i: Input)
    ensures OfStage(SubjectIssue(i.content), 18) && OfStage(SpamIssue(c, i), 21)
  {}

  lemma CodeTellsStage(c: Settings, i: Input, k: nat)
    requires k < STAGES
    ensures OfStage(Deduction(c, i, k), k)
  {
    if k < 3 {
      AuthenticationCodes(i);
    } else if k < 12 {
      ConnectionCodes(c, i, k);
    } else if k < 18 {
      BodyCodes(i.content, i.headers.listUnsubscribe, k);
    } else {
      MessageCodes(c, i);
      ListCodes(c, i);
    }
  }

  /** Codes of stages before n only, each later than the one before it, so that none occurs twice. */
  ghost predicate InStageOrder(items: seq<Issue>, n: nat) {
    && (forall a :: 0 <= a < |items| ==> StageOf(items[a].code) < n)
    && (forall a, b :: 0 <= a < b < |items| ==> StageOf(items[a].code) < StageOf(items[b].code))
  }

  lemma OrderOfOneMore(items: seq<Issue>, d: Option<Issue>, k: nat)
    requires InStageOrder(items, k) && OfStage(d, k)
    ensures InStageOrder(items + (if d.Some? then [d.value] else []), k + 1)
  {}

  /** After any number of stages the issues add up to what was deducted, and come in stage order. */
  lemma {:induction false} LedgerIsExact(c: Settings, i: Input, n: nat)
    requires n <= STAGES
    ensures Sum(Issues(c, i, n)) == Deducted(c, i, n) && InStageOrder(Issues(c, i, n), n)
  {
    if n > 0 {
      LedgerIsExact(c, i, n - 1);
      StageKeepsLedger(c, i, n - 1);
    }
  }

  lemma StageKeepsLedger(c: Settings, i: Input, k: nat)
    requires k < STAGES && Sum(Issues(c, i, k)) == Deducted(c, i, k) && InStageOrder(Issues(c, i, k), k)
    ensures Sum(Issues(c, i, k + 1)) == Deducted(c, i, k + 1) && InStageOrder(Issues(c, i, k + 1), k + 1)
  {
    StageAppends(c, i, k);
    OrderOfOneMore(Issues(c, i, k), Deduction(c, i, k), k);
  }

  lemma StageAppends(c: Settings, i: Input, k: nat)
    requires k < STAGES
    ensures var d := Deduction(c, i, k);
            && Issues(c, i, k + 1) == Issues(c, i, k) + (if d.Some? then [d.value] else [])
            && Sum(Issues(c, i, k + 1)) == Sum(Issues(c, i, k)) + Points(c, i, k)
            && Deducted(c, i, k + 1) == Deducted(c, i, k) + Points(c, i, k)
            && OfStage(d, k)
  {
    var d := Deduction(c, i, k);
    CodeTellsStage(c, i, k);
    if d.Some? {
      SumOfOneMore(Issues(c, i, k), d.value);
    } else {
      assert Issues(c, i, k + 1) == Issues(c, i, k);
    }
  }

  lemma SumOfOneMore(items: seq<Issue>, issue: Issue)
    ensures Sum(items + [issue]) == Sum(items) + issue.points
  {
    assert (items + [issue])[..|items|] == items;
  }

  /** The whole verdict of a run: the score, its grade and its issues. */
  function Verdict(c: Settings, i: Input): Outcome {
    Outcome(Reported(Raw(c, i)), GradeOf(Reported(Raw(c, i))), Issues(c, i, STAGES))
  }

  /** Raw score plus the points of the issues is ten; the reported score lies between zero and ten; no code repeats. */
  lemma VerdictIsBalanced(c: Settings, i: Input)
    ensures var v := Verdict(c, i);
            && Raw(c, i) + Sum(v.issues) == FULL && 0 <= v.score <= FULL
            && (forall a, b :: 0 <= a < b < |v.issues| ==> v.issues[a].code != v.issues[b].code)
  {
    LedgerIsExact(c, i, STAGES);
    DeductedBelow(c, i, STAGES);
  }

  lemma IssueCosts(c: Settings, i: Input, k: nat)
    ensures Deduction(c, i, k).Some? ==> Points(c, i, k) > 0
  {}

  lemma {:induction false} IssuesCost(c: Settings, i: Input, n: nat)
    requires n <= STAGES
    ensures forall a :: 0 <= a < |Issues(c, i, n)| ==> Issues(c, i, n)[a].points > 0
    ensures Deducted(c, i, n) == 0 <==> Issues(c, i, n) == []
  {
    if n > 0 {
      IssuesCost(c, i, n - 1);
      IssueCosts(c, i, n - 1);
      DeductedBelow(c, i, n - 1);
    }
  }

  /** No issue is free: each lowers the raw score, and a mail keeps all ten points exactly when it has no issue. */
  lemma TenExactlyWithoutIssues(c: Settings, i: Input)
    ensures var v := Verdict(c, i);
            && (forall a :: 0 <= a < |v.issues| ==> v.issues[a].points > 0)
            && (v.score == FULL <==> v.issues == [])
  {
    IssuesCost(c, i, STAGES);
    DeductedBelow(c, i, STAGES);
  }

  // ----- How the score answers to its inputs -----

  lemma {:induction false} DeductedMonotone(c: Settings, i: Input, c': Settings, j: Input, n: nat)
    requires forall k :: 0 <= k < n ==> Points(c, i, k) <= Points(c', j, k)
    ensures Deducted(c, i, n) <= Deducted(c', j, n)
  {
    if n > 0 { DeductedMonotone(c, i, c', j, n - 1); }
  }

  /** Two inputs that differ at two stages only: what happens there decides. */
  lemma {:induction false} DeductedDifference(c: Settings, i: Input, j: Input, a: nat, b: nat, n: nat)
    requires a < b && forall k :: 0 <= k < n && k != a && k != b ==> Points(c, i, k) == Points(c, j, k)
    ensures Deducted(c, j, n) - Deducted(c, i, n)
         == (if a < n then Points(c, j, a) - Points(c, i, a) else 0)
            + (if b < n then Points(c, j, b) - Points(c, i, b) else 0)
  {
    if n > 0 { DeductedDifference(c, i, j, a, b, n - 1); }
  }

  /** A lookup that gets no usable answer. */
  datatype Outage =
    | SpfRecordOut
    | DkimKeyOut
    | PtrOut
    | ForwardOut
    | IpListOut(dnsbl: string, reply: Reply)
    | DomainListOut(job: Job, reply: Reply)

  predicate IsFailure(r: Reply) { r.Timeout? || r.OtherError? }

  predicate Real(o: Outage) {
    (o.IpListOut? ==> IsFailure(o.reply)) && (o.DomainListOut? ==> IsFailure(o.reply))
  }

  function WithIpReply(i: Input, dnsbl: string, reply: Reply): Input {
    i.(ipReply := l => if l == dnsbl then reply else i.ipReply(l))
  }

  function WithDomainReply(i: Input, job: Job, reply: Reply): Input {
    i.(domainReply := j => if j == job then reply else i.domainReply(j))
  }

  /** The same analysis with one answer replaced by a failure. */
  function Without(i: Input, o: Outage): Input {
    match o
    case SpfRecordOut => i.(spfRecord := Failure)
    case DkimKeyOut => if i.signature.Signed? then i.(signature := i.signature.(key := Failure)) else i
    case PtrOut => i.(ptr := Failure)
    case ForwardOut => i.(forward := Failure)
    case IpListOut(l, reply) => WithIpReply(i, l, reply)
    case DomainListOut(j, reply) => WithDomainReply(i, j, reply)
  }

  /** The one way an outage costs points: the lost answer carried the only aligned pass, and the other mechanism was
      evaluated, so that DMARC turns from pass to fail. */
  predicate Hurts(i: Input, o: Outage) {
    var spf, dkim := CheckSpf(i), CheckDkim(i);
    match o
    case SpfRecordOut =>
      i.policy.Record? && SpfAligned(i.domain, i.policy, spf) && !DkimAligned(i.domain, i.policy, dkim)
      && dkim.verified.Some?
    case DkimKeyOut =>
      i.policy.Record? && DkimAligned(i.domain, i.policy, dkim) && !SpfAligned(i.domain, i.policy, spf)
      && spf.result.Some?
    case _ => false
  }

  lemma FewerListed(c: Settings, reply: string -> Reply, reply': string -> Reply)
    requires forall l :: IpStatusOf(reply')(l).Listed? ==> IpStatusOf(reply)(l).Listed?
    ensures |IpListed(c, reply')| <= |IpListed(c, reply)|
  {
    SubsetCardinality(IpListed(c, reply'), IpListed(c, reply));
  }

  lemma FewerDomainsListed(c: Settings, domains: seq<string>, reply: Job -> Reply, reply': Job -> Reply)
    requires forall j :: DomainStatusOf(reply')(j).Listed? ==> DomainStatusOf(reply)(j).Listed?
    ensures |DomainsListed(c, domains, reply')| <= |DomainsListed(c, domains, reply)|
  {
    SubsetCardinality(DomainsListed(c, domains, reply'), DomainsListed(c, domains, reply));
  }

  /** What losing the SPF record does to the two stages that read it. */
  lemma SpfOutageCosts(i: Input)
    ensures var j := Without(i, SpfRecordOut);
            Cost(SpfIssue(j)) + Cost(DmarcIssue(j)) > Cost(SpfIssue(i)) + Cost(DmarcIssue(i))
            <==> Hurts(i, SpfRecordOut)
  {}

  /** The SPF record and the DKIM signature are read by the first three stages only. */
  lemma AuthenticationMattersOnce(c: Settings, i: Input, j: Input)
    requires j == i.(spfRecord := j.spfRecord, signature := j.signature)
    ensures forall k :: 3 <= k < STAGES ==> Points(c, j, k) == Points(c, i, k)
  {}

  lemma SpfOutage(c: Settings, i: Input)
    ensures Deducted(c, Without(i, SpfRecordOut), STAGES) > Deducted(c, i, STAGES) <==> Hurts(i, SpfRecordOut)
  {
    SpfOutageCosts(i);
    AuthenticationMattersOnce(c, i, Without(i, SpfRecordOut));
    DeductedDifference(c, i, Without(i, SpfRecordOut), 0, 2, STAGES);
  }

  lemma DkimOutageCosts(i: Input)
    ensures var j := Without(i, DkimKeyOut);
            Cost(DkimIssue(j)) + Cost(DmarcIssue(j)) > Cost(DkimIssue(i)) + Cost(DmarcIssue(i))
            <==> Hurts(i, DkimKeyOut)
  {}

  lemma DkimOutage(c: Settings, i: Input)
    ensures Deducted(c, Without(i, DkimKeyOut), STAGES) > Deducted(c, i, STAGES) <==> Hurts(i, DkimKeyOut)
  {
    DkimOutageCosts(i);
    AuthenticationMattersOnce(c, i, Without(i, DkimKeyOut));
    DeductedDifference(c, i, Without(i, DkimKeyOut), 1, 2, STAGES);
  }

  /** Only the list stages read the list replies. */
  lemma RepliesMatterOnce(c: Settings, i: Input, j: Input)
    requires j == i.(ipReply := j.ipReply, domainReply := j.domainReply)
    ensures Deducted(c, j, STAGES) - Deducted(c, i, STAGES)
         == Cost(DnsblIssue(c, j)) - Cost(DnsblIssue(c, i)) + Cost(UriblIssue(c, j)) - Cost(UriblIssue(c, i))
  {
    DeductedDifference(c, i, j, 11, 20, STAGES);
  }

  /** Replies that list less cost less. */
  lemma ListedLessCostsLess(c: Settings, i: Input, j: Input)
    requires j == i.(ipReply := j.ipReply, domainReply := j.domainReply)
    requires forall l :: IpStatusOf(j.ipReply)(l).Listed? ==> IpStatusOf(i.ipReply)(l).Listed?
    requires forall x :: DomainStatusOf(j.domainReply)(x).Listed? ==> DomainStatusOf(i.domainReply)(x).Listed?
    ensures Deducted(c, j, STAGES) <= Deducted(c, i, STAGES)
  {
    FewerListed(c, i.ipReply, j.ipReply);
    FewerDomainsListed(c, [i.domain] + i.content.linkHosts, i.domainReply, j.domainReply);
    RepliesMatterOnce(c, i, j);
  }

  lemma RdnsMattersOnce(c: Settings, i: Input, j: Input)
    requires j == i.(ptr := j.ptr, forward := j.forward)
    ensures forall k :: 0 <= k < STAGES && k != 9 && k != 10 ==> Points(c, i, k) == Points(c, j, k)
  {}

  lemma RdnsOutageCosts(i: Input, o: Outage)
    requires o.PtrOut? || o.ForwardOut?
    ensures Cost(RdnsIssue(Without(i, o))) <= Cost(RdnsIssue(i))
    ensures Cost(HeloRdnsIssue(Without(i, o))) <= Cost(HeloRdnsIssue(i))
  {}

  lemma RdnsOutage(c: Settings, i: Input, o: Outage)
    requires o.PtrOut? || o.ForwardOut?
    ensures Deducted(c, Without(i, o), STAGES) <= Deducted(c, i, STAGES)
  {
    var j := Without(i, o);
    RdnsMattersOnce(c, i, j);
    DeductedDifference(c, i, j, 9, 10, STAGES);
    RdnsOutageCosts(i, o);
  }

  lemma IpListOutage(c: Settings, i: Input, dnsbl: string, reply: Reply)
    requires IsFailure(reply)
    ensures Deducted(c, WithIpReply(i, dnsbl, reply), STAGES) <= Deducted(c, i, STAGES)
  {
    var j := WithIpReply(i, dnsbl, reply);
    forall l ensures IpStatusOf(j.ipReply)(l).Listed? ==> IpStatusOf(i.ipReply)(l).Listed? {
      assert j.ipReply(l) == if l == dnsbl then reply else i.ipReply(l);
    }
    ListedLessCostsLess(c, i, j);
  }

  lemma DomainListOutage(c: Settings, i: Input, job: Job, reply: Reply)
    requires IsFailure(reply)
    ensures Deducted(c, WithDomainReply(i, job, reply), STAGES) <= Deducted(c, i, STAGES)
  {
    var j := WithDomainReply(i, job, reply);
    forall x ensures DomainStatusOf(j.domainReply)(x).Listed? ==> DomainStatusOf(i.domainReply)(x).Listed? {
      assert j.domainReply(x) == if x == job then reply else i.domainReply(x);
    }
    ListedLessCostsLess(c, i, j);
  }

  lemma OtherOutage(c: Settings, i: Input, o: Outage)
    requires Real(o) && !o.SpfRecordOut? && !o.DkimKeyOut?
    ensures Deducted(c, Without(i, o), STAGES) <= Deducted(c, i, STAGES)
  {
    match o
    case IpListOut(l, reply) => IpListOutage(c, i, l, reply);
    case DomainListOut(x, reply) => DomainListOutage(c, i, x, reply);
    case _ => RdnsOutage(c, i, o);
  }

  /** When a failed lookup can lower the score: exactly when it takes away the mechanism DMARC passed by. In particular
      never when the answer it replaces made its own check bad. */
  lemma OutageLowersScoreExactly(c: Settings, i: Input, o: Outage)
    requires Real(o)
    ensures Raw(c, Without(i, o)) < Raw(c, i) <==> Hurts(i, o)
    ensures (o.SpfRecordOut? && SpfIssue(i).Some?) || (o.DkimKeyOut? && DkimIssue(i).Some?)
            || (!o.SpfRecordOut? && !o.DkimKeyOut?)
            ==> Reported(Raw(c, i)) <= Reported(Raw(c, Without(i, o)))
  {
    if o.SpfRecordOut? {
      SpfOutage(c, i);
    } else if o.DkimKeyOut? {
      DkimOutage(c, i);
    } else {
      OtherOutage(c, i, o);
    }
  }

  /** One more listing of the address raises neither the score nor the grade. */
  lemma IpListingNeverHelps(c: Settings, i: Input, dnsbl: string, reply: Reply)
    requires IpReplyStatus(dnsbl, reply).Listed?
    ensures Raw(c, WithIpReply(i, dnsbl, reply)) <= Raw(c, i)
    ensures Rank(Verdict(c, WithIpReply(i, dnsbl, reply)).grade) <= Rank(Verdict(c, i).grade)
  {
    var j := WithIpReply(i, dnsbl, reply);
    forall l ensures IpStatusOf(i.ipReply)(l).Listed? ==> IpStatusOf(j.ipReply)(l).Listed? {}
    ListedLessCostsLess(c, j, i);
    ReportIsMonotone(Raw(c, j), Raw(c, i));
  }

  /** Nor does one more listing of the sender's domain or of a link. */
  lemma DomainListingNeverHelps(c: Settings, i: Input, job: Job, reply: Reply)
    requires DomainReplyStatus(reply).Listed?
    ensures Raw(c, WithDomainReply(i, job, reply)) <= Raw(c, i)
    ensures Rank(Verdict(c, WithDomainReply(i, job, reply)).grade) <= Rank(Verdict(c, i).grade)
  {
    var j := WithDomainReply(i, job, reply);
    forall x ensures DomainStatusOf(i.domainReply)(x).Listed? ==> DomainStatusOf(j.domainReply)(x).Listed? {}
    ListedLessCostsLess(c, j, i);
    ReportIsMonotone(Raw(c, j), Raw(c, i));
  }

  lemma SpamMattersOnce(c: Settings, i: Input, j: Input)
    requires j == i.(spam := j.spam)
    ensures forall k :: 0 <= k < 21 ==> Points(c, i, k) == Points(c, j, k)
  {}

  lemma OneMoreRuleCosts(c: Settings, spam: SpamReport, rule: Rule)
    requires spam.SpamReport?
    ensures var more := SpamPenalty(c, spam.(rules := spam.rules + [rule]));
            && Max(0, SpamPenalty(c, spam)) <= Max(0, more)
            && (!Counted(rule) ==> more == SpamPenalty(c, spam))
  {
    assert (spam.rules + [rule])[..|spam.rules|] == spam.rules;
    PointsNotNegative(spam.rules);
  }

  /** One more SpamAssassin rule, counted or not, raises neither, and a skipped one changes nothing. */
  lemma SpamRuleNeverHelps(c: Settings, i: Input, rule: Rule)
    requires i.spam.SpamReport?
    ensures var j := i.(spam := i.spam.(rules := i.spam.rules + [rule]));
            && Raw(c, j) <= Raw(c, i) && (!Counted(rule) ==> Raw(c, j) == Raw(c, i))
            && Rank(Verdict(c, j).grade) <= Rank(Verdict(c, i).grade)
  {
    var j := i.(spam := i.spam.(rules := i.spam.rules + [rule]));
    OneMoreRuleCosts(c, i.spam, rule);
    SpamMattersOnce(c, i, j);
    DeductedDifference(c, i, j, 20, 21, STAGES);
    ReportIsMonotone(Raw(c, j), Raw(c, i));
  }

  lemma {:induction false} PointsNotNegative(rules: seq<Rule>)
    ensures CountedPoints(rules) >= 0
  {
    if rules != [] { PointsNotNegative(rules[..|rules| - 1]); }
  }
}

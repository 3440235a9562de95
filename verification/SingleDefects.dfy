/** What each thing wrong with a mail costs: one defect put into an exemplary mail adds its one issue and no other. */
module SingleDefects {
  import opened Prelude
  import opened Strings
  import opened Dmarc
  import opened Blacklists
  import opened Scoring
  import opened Analysis
  import opened Ledger
  import opened CleanMail

  /** Clean, with an answer to every lookup, and with both mechanisms vouching for the From domain. */
  ghost predicate Exemplary(c: Settings, i: Input) {
    && Clean(c, i) && SpfVouches(i) && DkimVouches(i) && Enforces(i.policy)
    && Given(i.publicIp) && Given(i.helo) && i.ptr.Found? && i.ptr.values != ""
    && i.forward.Found? && i.content.hasUnsubscribeLink
  }

  datatype Defect =
    | NoSpfRecord | SpfSays(result: string)
    | NoSignature | NoSelector | NoKey | BadSignature
    | NoPolicyRecord | OtherPolicy(policy: Discovery)
    | NoMessageId | NoDate | NoListUnsubscribe | OtherEnvelope(address: string)
    | NoTls | NumberHelo(name: string) | NoPtrRecord | NoForwardRecord | OtherForward(addresses: seq<string>)
    | OtherHelo(name: string) | ListedAddress(reply: string -> Reply)
    | HtmlAlone | LittleText(ratio: int) | ImagesAlone | WithoutAlt(images: nat) | Shorteners(links: nat)
    | EmptySubject | Capitals | Exclamations(marks: nat)
    | ListedDomain(answer: Job -> Reply) | SpamHits(rules: seq<Rule>)

  /** The content with a defect of content. */
  function Spoilt(t: Content, d: Defect): Content {
    match d
    case HtmlAlone => t.(hasHtml := true, hasPlain := false)
    case LittleText(ratio) => t.(textRatio := Some(ratio))
    case ImagesAlone => t.(imageCount := 1, textLength := 0)
    case WithoutAlt(images) => t.(imagesWithoutAlt := images)
    case Shorteners(links) => t.(shortenedLinks := links)
    case EmptySubject => t.(subjectLength := 0, subjectExclamations := 0)
    case Capitals => t.(subjectAllCaps := true)
    case Exclamations(marks) => t.(subjectExclamations := marks)
    case _ => t
  }

  /** The mail with this defect. */
  function Having(i: Input, d: Defect): Input {
    var s := i.signature;
    match d
    case NoSpfRecord => i.(spfRecord := NoRecord)
    case SpfSays(result) => i.(spfEvaluation := result)
    case NoSignature => i.(signature := Unsigned)
    case NoSelector => if s.Signed? then i.(signature := s.(selector := None)) else i
    case NoKey => if s.Signed? then i.(signature := s.(key := NoRecord)) else i
    case BadSignature => if s.Signed? then i.(signature := s.(verifies := false)) else i
    case NoPolicyRecord => i.(policy := NoPolicy)
    case OtherPolicy(policy) => i.(policy := policy)
    case NoMessageId => i.(headers := i.headers.(messageId := false))
    case NoDate => i.(headers := i.headers.(date := false))
    case NoListUnsubscribe => i.(headers := i.headers.(listUnsubscribe := false))
    case OtherEnvelope(address) => i.(envelopeFrom := Some(address))
    case NoTls => i.(tls := false)
    case NumberHelo(name) => i.(helo := Some(name), ptr := Found(Bared(name)))
    case NoPtrRecord => i.(ptr := NoRecord)
    case NoForwardRecord => i.(forward := NoRecord)
    case OtherForward(addresses) => i.(forward := Found(addresses))
    case OtherHelo(name) => i.(helo := Some(name))
    case ListedAddress(reply) => i.(ipReply := reply)
    case ListedDomain(answer) => i.(domainReply := answer)
    case SpamHits(rules) => i.(spam := SpamReport(true, rules))
    case _ => i.(content := Spoilt(i.content, d))
  }

  /** The lists that name the address, and the pairs of a domain and a list that names it. */
  function ListsNaming(c: Settings, reply: string -> Reply): set<string> {
    set l | l in FirstN(DNSBL_LISTS, c.maxLists) && IpReplyStatus(l, reply(l)).Listed?
  }

  function DomainsNamed(c: Settings, i: Input, answer: Job -> Reply): set<Job> {
    set d, l | d in Targets([i.domain] + i.content.linkHosts, c.maxDomains) && l in DOMAIN_DNSBL_LISTS
               && DomainReplyStatus(answer((d, l))).Listed? :: (d, l)
  }

  function HitPoints(rules: seq<Rule>): int {
    if rules == [] then 0 else (if Hits(rules[0]) then rules[0].points else 0) + HitPoints(rules[1..])
  }

  /** The defect is one. */
  ghost predicate IsDefect(c: Settings, i: Input, d: Defect) {
    match d
    case SpfSays(result) => result != "pass" && result != ""
    case OtherPolicy(policy) =>
      policy.Record? && !(Enforces(policy) && (SpfVouches(Having(i, d)) || DkimVouches(Having(i, d))))
    case OtherEnvelope(address) =>
      var other := OrganizationalDomain(AfterLast(address, '@'));
      address != "" && other != "" && other != OrganizationalDomain(i.domain)
    case NumberHelo(name) => Bared(name) != "" && !HostName(Bared(name))
    case OtherForward(addresses) => i.publicIp.Some? && i.publicIp.value !in addresses
    case OtherHelo(name) =>
      name != "" && HostName(Bared(name)) && (i.ptr.Found? ==> Lower(Bared(name)) != Lower(i.ptr.values))
    case ListedAddress(reply) => ListsNaming(c, reply) != {}
    case LittleText(ratio) => ratio < 50
    case WithoutAlt(images) => images > 0
    case Shorteners(links) => links > 0
    case Exclamations(marks) => marks > 2
    case ListedDomain(answer) => DomainsNamed(c, i, answer) != {}
    case SpamHits(rules) => c.spamCap > 0 && HitPoints(rules) > 0
    case _ => true
  }

  const SPF_PRICES: map<string, int> :=
    map["fail" := 200, "softfail" := 100, "neutral" := 50, "none" := 50, "permerror" := 100, "temperror" := 30]

  /** The issue a defect brings. */
  ghost function Price(c: Settings, i: Input, d: Defect): Issue {
    match d
    case NoSpfRecord => Issue(SpfMissing, 200)
    case SpfSays(result) => Issue(SpfResult(result), if result in SPF_PRICES then SPF_PRICES[result] else 50)
    case NoSignature => Issue(DkimMissing, 150)
    case NoSelector => Issue(DkimBroken, 100)
    case NoKey => Issue(DkimNoKey, 150)
    case BadSignature => Issue(DkimInvalid, 150)
    case NoPolicyRecord => Issue(DmarcMissing, 100)
    case OtherPolicy(_) =>
      if SpfVouches(Having(i, d)) || DkimVouches(Having(i, d)) then Issue(DmarcPolicyNone, 30)
      else Issue(DmarcFail, 100)
    case NoMessageId => Issue(MessageIdMissing, 50)
    case NoDate => Issue(DateMissing, 50)
    case NoListUnsubscribe => Issue(ListUnsubMissing, 20)
    case OtherEnvelope(_) => Issue(EnvelopeMismatch, 30)
    case NoTls => Issue(TlsMissing, 50)
    case NumberHelo(_) => Issue(HeloNotFqdn, 30)
    case NoPtrRecord => Issue(RdnsMissing, 50)
    case NoForwardRecord => Issue(RdnsNoMatch, 50)
    case OtherForward(_) => Issue(RdnsNoMatch, 50)
    case OtherHelo(_) => Issue(HeloRdnsMismatch, 20)
    case ListedAddress(reply) => Issue(DnsblListed, Min(200, 40 * |ListsNaming(c, reply)|))
    case HtmlAlone => Issue(NoPlain, 50)
    case LittleText(_) => Issue(LowText, 50)
    case ImagesAlone => Issue(ImageOnly, 50)
    case WithoutAlt(_) => Issue(ImgNoAlt, 20)
    case Shorteners(_) => Issue(ShortLinks, 50)
    case EmptySubject => Issue(SubjectEmpty, 50)
    case Capitals => Issue(SubjectAllCaps, 30)
    case Exclamations(_) => Issue(SubjectExclaim, 20)
    case ListedDomain(answer) => Issue(UriblListed, Min(200, 100 * |DomainsNamed(c, i, answer)|))
    case SpamHits(rules) => Issue(SpamRules, Min(c.spamCap, HitPoints(rules)))
  }

  // ----- One loud stage -----

  /** Stage s brings this issue, and no other stage any. */
  predicate Lone(c: Settings, j: Input, s: nat, issue: Issue) {
    s < STAGES && Deduction(c, j, s) == Some(issue) && forall k: nat :: k < STAGES && k != s ==> Silent(c, j, k)
  }

  lemma {:induction false} LoneIssue(c: Settings, j: Input, s: nat, issue: Issue, n: nat)
    requires Lone(c, j, s, issue) && n <= STAGES
    ensures Issues(c, j, n) == if s < n then [issue] else []
    ensures Deducted(c, j, n) == if s < n then issue.points else 0
  {
    if n > 0 {
      LoneIssue(c, j, s, issue, n - 1);
      assert n - 1 != s ==> Silent(c, j, n - 1);
    }
  }

  /** Which stage a defect is found at. */
  function StageFor(d: Defect): nat {
    match d
    case NoSpfRecord => 0
    case SpfSays(_) => 0
    case NoSignature => 1
    case NoSelector => 1
    case NoKey => 1
    case BadSignature => 1
    case NoPolicyRecord => 2
    case OtherPolicy(_) => 2
    case NoMessageId => 3
    case NoDate => 4
    case NoListUnsubscribe => 5
    case OtherEnvelope(_) => 6
    case NoTls => 7
    case NumberHelo(_) => 8
    case NoPtrRecord => 9
    case NoForwardRecord => 9
    case OtherForward(_) => 9
    case OtherHelo(_) => 10
    case ListedAddress(_) => 11
    case HtmlAlone => 12
    case LittleText(_) => 13
    case ImagesAlone => 14
    case WithoutAlt(_) => 15
    case Shorteners(_) => 16
    case EmptySubject => 18
    case Capitals => 18
    case Exclamations(_) => 19
    case ListedDomain(_) => 20
    case SpamHits(_) => 21
  }

  lemma AuthenticationOnly(c: Settings, i: Input, j: Input, k: nat)
    requires j == i.(spfRecord := j.spfRecord, spfEvaluation := j.spfEvaluation, signature := j.signature,
                     policy := j.policy)
    ensures k >= 3 ==> Deduction(c, j, k) == Deduction(c, i, k)
  {}

  lemma SpfPrices(result: string)
    ensures SpfPenalty(result) == if result in SPF_PRICES then SPF_PRICES[result] else 50
  {}

  /** SPF no longer vouches; the signature still does. */
  lemma SpfDefect(c: Settings, i: Input, d: Defect)
    requires Exemplary(c, i) && IsDefect(c, i, d) && StageFor(d) == 0
    ensures var j := Having(i, d); Deduction(c, j, 0) == Some(Price(c, i, d)) && DkimClean(j) && DmarcClean(j)
  {
    var j := Having(i, d);
    assert DkimVouches(j) && Enforces(j.policy);
    if d.SpfSays? { SpfPrices(d.result); }
  }

  /** The signature no longer vouches; SPF still does. */
  lemma DkimDefect(c: Settings, i: Input, d: Defect)
    requires Exemplary(c, i) && StageFor(d) == 1
    ensures var j := Having(i, d); Deduction(c, j, 1) == Some(Price(c, i, d)) && SpfClean(j) && DmarcClean(j)
  {
    var j := Having(i, d);
    assert SpfVouches(j) && Enforces(j.policy);
  }

  /** What the policy record makes of a mail that SPF or DKIM had something to say about. */
  lemma PolicyIssue(j: Input)
    requires j.policy.Record? && (SpfRan(j) || DkimRan(j))
    ensures DmarcIssue(j) == if !SpfVouches(j) && !DkimVouches(j) then Some(Issue(DmarcFail, 100))
                             else if Enforces(j.policy) then None else Some(Issue(DmarcPolicyNone, 30))
  {
    var d, spf, dkim := j.policy, CheckSpf(j), CheckDkim(j);
    SpfAlignment(j);
    DkimAlignment(j);
    Policies(j);
    assert CheckDmarc(j) == if SpfAligned(j.domain, d, spf) || DkimAligned(j.domain, d, dkim) then Pass else Fail;
  }

  lemma PolicyDefect(c: Settings, i: Input, d: Defect)
    requires Exemplary(c, i) && IsDefect(c, i, d) && StageFor(d) == 2
    ensures var j := Having(i, d); Deduction(c, j, 2) == Some(Price(c, i, d)) && SpfClean(j) && DkimClean(j)
  {
    var j := Having(i, d);
    assert Deduction(c, j, 2) == DmarcIssue(j);
    assert SpfRan(j);
    if d.OtherPolicy? { PolicyIssue(j); }
  }

  lemma AuthenticationDefect(c: Settings, i: Input, d: Defect)
    requires Exemplary(c, i) && IsDefect(c, i, d) && StageFor(d) < 3
    ensures Lone(c, Having(i, d), StageFor(d), Price(c, i, d))
  {
    var j := Having(i, d);
    if StageFor(d) == 0 {
      SpfDefect(c, i, d);
    } else if StageFor(d) == 1 {
      DkimDefect(c, i, d);
    } else {
      PolicyDefect(c, i, d);
    }
    AuthenticationSilent(c, j);
    LaterStagesSilent(c, i, d);
  }

  lemma LaterStagesSilent(c: Settings, i: Input, d: Defect)
    requires Exemplary(c, i) && StageFor(d) < 3
    ensures forall k: nat :: 3 <= k < STAGES ==> Silent(c, Having(i, d), k)
  {
    StagesSilent(c, i);
    forall k: nat | 3 <= k < STAGES ensures Silent(c, Having(i, d), k) {
      AuthenticationOnly(c, i, Having(i, d), k);
      assert Silent(c, i, k);
    }
  }

  lemma HeadersOnly(c: Settings, i: Input, j: Input, k: nat)
    requires j == i.(headers := j.headers) && i.content.hasUnsubscribeLink
    requires k == 3 ==> j.headers.messageId == i.headers.messageId
    requires k == 4 ==> j.headers.date == i.headers.date
    requires k == 5 ==> j.headers.listUnsubscribe == i.headers.listUnsubscribe
    ensures Deduction(c, j, k) == Deduction(c, i, k)
  {}

  lemma HeaderDefect(c: Settings, i: Input, d: Defect)
    requires Exemplary(c, i) && 3 <= StageFor(d) < 6
    ensures Lone(c, Having(i, d), StageFor(d), Price(c, i, d))
  {
    var j := Having(i, d);
    StagesSilent(c, i);
    forall k: nat | k < STAGES && k != StageFor(d) ensures Silent(c, j, k) {
      HeadersOnly(c, i, j, k);
      assert Silent(c, i, k);
    }
  }

  lemma EnvelopeOnly(c: Settings, i: Input, j: Input, k: nat)
    requires j == i.(envelopeFrom := j.envelopeFrom)
    ensures k >= 3 && k != 6 ==> Deduction(c, j, k) == Deduction(c, i, k)
  {}

  /** The other envelope domain is not aligned, perhaps; the signature still is. */
  lemma EnvelopeDefect(c: Settings, i: Input, d: Defect)
    requires Exemplary(c, i) && IsDefect(c, i, d) && d.OtherEnvelope?
    ensures Lone(c, Having(i, d), 6, Price(c, i, d))
  {
    EnvelopeKeepsAuthentication(c, i, d);
    EnvelopeLoud(c, i, d);
    StagesSilent(c, i);
    forall k: nat | k < STAGES && k != 6 ensures Silent(c, Having(i, d), k) {
      if k >= 3 {
        EnvelopeOnly(c, i, Having(i, d), k);
        assert Silent(c, i, k);
      }
    }
  }

  lemma EnvelopeKeepsAuthentication(c: Settings, i: Input, d: Defect)
    requires Exemplary(c, i) && d.OtherEnvelope?
    ensures forall k: nat :: k < 3 ==> Silent(c, Having(i, d), k)
  {
    AuthenticationSilent(c, Having(i, d));
    assert DkimVouches(Having(i, d));
  }

  lemma EnvelopeLoud(c: Settings, i: Input, d: Defect)
    requires IsDefect(c, i, d) && d.OtherEnvelope?
    ensures Deduction(c, Having(i, d), 6) == Some(Price(c, i, d))
  {
    assert Deduction(c, Having(i, d), 6) == EnvelopeIssue(Having(i, d));
  }

  lemma ConnectionOnly(c: Settings, i: Input, j: Input, k: nat)
    requires j == i.(tls := j.tls, helo := j.helo, ptr := j.ptr, forward := j.forward)
    ensures k < 7 || k >= 11 ==> Deduction(c, j, k) == Deduction(c, i, k)
    ensures k == 7 && j.tls == i.tls ==> Deduction(c, j, k) == Deduction(c, i, k)
    ensures k == 8 && j.helo == i.helo ==> Deduction(c, j, k) == Deduction(c, i, k)
    ensures k == 9 && j.ptr == i.ptr && j.forward == i.forward ==> Deduction(c, j, k) == Deduction(c, i, k)
    ensures k == 10 && j.ptr == i.ptr && j.helo == i.helo ==> Deduction(c, j, k) == Deduction(c, i, k)
  {}

  lemma ConnectionLoud(c: Settings, i: Input, d: Defect)
    requires Exemplary(c, i) && IsDefect(c, i, d) && 7 <= StageFor(d) < 11
    ensures Deduction(c, Having(i, d), StageFor(d)) == Some(Price(c, i, d))
    ensures d.NumberHelo? ==> Silent(c, Having(i, d), 9) && Silent(c, Having(i, d), 10)
    ensures d.OtherHelo? ==> Silent(c, Having(i, d), 8)
    ensures d.NoPtrRecord? ==> Silent(c, Having(i, d), 10)
  {
    assert ReverseClean(i);
    if d.NumberHelo? { NumberHeloLoud(c, i, d); }
    if d.OtherHelo? { OtherHeloLoud(c, i, d); }
  }

  lemma NumberHeloLoud(c: Settings, i: Input, d: Defect)
    requires Exemplary(c, i) && IsDefect(c, i, d) && d.NumberHelo?
    ensures Deduction(c, Having(i, d), 8) == Some(Issue(HeloNotFqdn, 30))
    ensures Silent(c, Having(i, d), 9) && Silent(c, Having(i, d), 10)
  {
    var j := Having(i, d);
    assert Bared("") == "";
    assert HeloClean(j) <==> HostName(Bared(d.name));
    ConnectionSilent(c, j);
    assert ReverseClean(i) && ReverseClean(j);
    HostNames(Bared(d.name));
    assert Bared(d.name) == Unbracket(d.name);
  }

  lemma OtherHeloLoud(c: Settings, i: Input, d: Defect)
    requires Exemplary(c, i) && IsDefect(c, i, d) && d.OtherHelo?
    ensures Deduction(c, Having(i, d), 10) == Some(Issue(HeloRdnsMismatch, 20))
    ensures Silent(c, Having(i, d), 8)
  {
    var j := Having(i, d);
    ConnectionSilent(c, j);
    assert HeloClean(j);
    assert Bared(d.name) == Unbracket(d.name);
    assert Deduction(c, j, 10) == HeloRdnsIssue(j);
  }

  lemma ConnectionDefect(c: Settings, i: Input, d: Defect)
    requires Exemplary(c, i) && IsDefect(c, i, d) && 7 <= StageFor(d) < 11
    ensures Lone(c, Having(i, d), StageFor(d), Price(c, i, d))
  {
    var j := Having(i, d);
    StagesSilent(c, i);
    ConnectionLoud(c, i, d);
    forall k: nat | k < STAGES && k != StageFor(d) ensures Silent(c, j, k) {
      ConnectionOnly(c, i, j, k);
      assert Silent(c, i, k);
    }
  }

  lemma ContentOnly(c: Settings, i: Input, j: Input, k: nat)
    requires j == i.(content := j.content) && j.content.linkHosts == i.content.linkHosts
    ensures k < 12 || k >= 20 ==> Deduction(c, j, k) == Deduction(c, i, k)
  {}

  lemma PartDefect(c: Settings, i: Input, d: Defect)
    requires Exemplary(c, i) && IsDefect(c, i, d) && 12 <= StageFor(d) < 20
    ensures Lone(c, Having(i, d), StageFor(d), Price(c, i, d))
  {
    var j := Having(i, d);
    StagesSilent(c, i);
    PartsSilent(c, j);
    SubjectSilent(c, j);
    forall k: nat | k < STAGES && k != StageFor(d) ensures Silent(c, j, k) {
      if k < 12 || k >= 20 {
        ContentOnly(c, i, j, k);
        assert Silent(c, i, k);
      } else {
        PartSilent(c, i, d, k);
      }
    }
  }

  lemma SpoiltPart(t: Content, d: Defect, k: nat)
    requires PartsClean(t) && t.hasUnsubscribeLink && 12 <= StageFor(d) < 20 && 12 <= k < 18 && k != StageFor(d)
    ensures BodyIssue(Spoilt(t, d), true, k).None?
  {}

  lemma SpoiltSubject(t: Content, d: Defect, k: nat)
    requires SubjectClean(t) && 12 <= StageFor(d) < 20
    ensures StageFor(d) != 18 ==> SubjectIssue(Spoilt(t, d)).None?
    ensures StageFor(d) != 19 ==> Spoilt(t, d).subjectExclamations <= 2
  {}

  lemma PartSilent(c: Settings, i: Input, d: Defect, k: nat)
    requires Exemplary(c, i) && 12 <= StageFor(d) < 20 && 12 <= k < 20 && k != StageFor(d)
    ensures Silent(c, Having(i, d), k)
  {
    assert Having(i, d) == i.(content := Spoilt(i.content, d));
    if k < 18 { SpoiltPart(i.content, d, k); } else { SpoiltSubject(i.content, d, k); }
  }

  lemma AddressLists(c: Settings, i: Input, d: Defect)
    requires Exemplary(c, i) && IsDefect(c, i, d) && d.ListedAddress?
    ensures Deduction(c, Having(i, d), 11) == Some(Price(c, i, d))
  {
    SameLists(c, d.reply);
    assert Deduction(c, Having(i, d), 11) == DnsblIssue(c, Having(i, d));
  }

  lemma SameLists(c: Settings, reply: string -> Reply)
    ensures IpListed(c, reply) == ListsNaming(c, reply)
    ensures ListsNaming(c, reply) != {} ==> |ListsNaming(c, reply)| > 0
  {}

  lemma DomainLists(c: Settings, i: Input, d: Defect)
    requires Exemplary(c, i) && IsDefect(c, i, d) && d.ListedDomain?
    ensures Deduction(c, Having(i, d), 20) == Some(Price(c, i, d))
  {
    SameDomains(c, i, d.answer);
    assert Deduction(c, Having(i, d), 20) == UriblIssue(c, Having(i, d));
  }

  lemma SameDomains(c: Settings, i: Input, answer: Job -> Reply)
    ensures DomainsListed(c, [i.domain] + i.content.linkHosts, answer) == DomainsNamed(c, i, answer)
    ensures DomainsNamed(c, i, answer) != {} ==> |DomainsNamed(c, i, answer)| > 0
  {}

  lemma ListDefect(c: Settings, i: Input, d: Defect)
    requires Exemplary(c, i) && IsDefect(c, i, d) && (d.ListedAddress? || d.ListedDomain?)
    ensures Lone(c, Having(i, d), StageFor(d), Price(c, i, d))
  {
    var j := Having(i, d);
    StagesSilent(c, i);
    if d.ListedAddress? { AddressLists(c, i, d); } else { DomainLists(c, i, d); }
    forall k: nat | k < STAGES && k != StageFor(d) ensures Silent(c, j, k) {
      RepliesOnly(c, i, j, k);
      assert Silent(c, i, k);
    }
  }

  lemma RepliesOnly(c: Settings, i: Input, j: Input, k: nat)
    requires j == i.(ipReply := j.ipReply, domainReply := j.domainReply)
    ensures k != 11 && k != 20 ==> Deduction(c, j, k) == Deduction(c, i, k)
    ensures j.ipReply == i.ipReply && k != 20 ==> Deduction(c, j, k) == Deduction(c, i, k)
    ensures j.domainReply == i.domainReply && k != 11 ==> Deduction(c, j, k) == Deduction(c, i, k)
  {}

  lemma {:induction false} HitsAdd(rules: seq<Rule>, last: Rule)
    ensures HitPoints(rules + [last]) == HitPoints(rules) + (if Hits(last) then last.points else 0)
  {
    if rules == [] {
      assert [] + [last] == [last] && [last][1..] == [];
    } else {
      assert (rules + [last])[1..] == rules[1..] + [last];
      HitsAdd(rules[1..], last);
    }
  }

  lemma {:induction false} HitsAreCounted(rules: seq<Rule>)
    ensures CountedPoints(rules) == HitPoints(rules)
  {
    if rules != [] {
      var front, last := rules[..|rules| - 1], rules[|rules| - 1];
      assert rules == front + [last];
      HitsAreCounted(front);
      HitsAdd(front, last);
      assert Counted(last) <==> Hits(last);
    }
  }

  lemma SpamDefect(c: Settings, i: Input, d: Defect)
    requires Exemplary(c, i) && IsDefect(c, i, d) && d.SpamHits?
    ensures Lone(c, Having(i, d), 21, Price(c, i, d))
  {
    var j := Having(i, d);
    StagesSilent(c, i);
    SpamLoud(c, i, d);
    forall k: nat | k < STAGES && k != 21 ensures Silent(c, j, k) {
      SpamOnly(c, i, j, k);
      assert Silent(c, i, k);
    }
  }

  lemma SpamLoud(c: Settings, i: Input, d: Defect)
    requires IsDefect(c, i, d) && d.SpamHits?
    ensures Deduction(c, Having(i, d), 21) == Some(Price(c, i, d))
  {
    HitsAreCounted(d.rules);
  }

  lemma SpamOnly(c: Settings, i: Input, j: Input, k: nat)
    requires j == i.(spam := j.spam)
    ensures k != 21 ==> Deduction(c, j, k) == Deduction(c, i, k)
  {}

  lemma DefectIsLone(c: Settings, i: Input, d: Defect)
    requires Exemplary(c, i) && IsDefect(c, i, d)
    ensures Lone(c, Having(i, d), StageFor(d), Price(c, i, d))
  {
    var s := StageFor(d);
    if s < 3 {
      AuthenticationDefect(c, i, d);
    } else if s < 6 {
      HeaderDefect(c, i, d);
    } else if s == 6 {
      EnvelopeDefect(c, i, d);
    } else if s < 11 {
      ConnectionDefect(c, i, d);
    } else if s == 11 || s == 20 {
      ListDefect(c, i, d);
    } else if s < 20 {
      PartDefect(c, i, d);
    } else {
      SpamDefect(c, i, d);
    }
  }

  /** One defect in an exemplary mail: its issue is the only one, and its price is all that is lost of ten points. */
  lemma OneDefectOneIssue(c: Settings, i: Input, d: Defect)
    requires Exemplary(c, i) && IsDefect(c, i, d)
    ensures var v := Verdict(c, Having(i, d));
            v.issues == [Price(c, i, d)] && v.score == Max(0, 1000 - Price(c, i, d).points)
    ensures Verdict(c, i).issues == [] && Verdict(c, i).score == 1000
  {
    DefectIsLone(c, i, d);
    LoneVerdict(c, Having(i, d), StageFor(d), Price(c, i, d));
    CleanExactly(c, i);
  }

  lemma LoneVerdict(c: Settings, j: Input, s: nat, issue: Issue)
    requires Lone(c, j, s, issue)
    ensures Verdict(c, j).issues == [issue] && Verdict(c, j).score == Max(0, 1000 - issue.points)
  {
    LoneIssue(c, j, s, issue, STAGES);
  }

  /** A mail with no way to unsubscribe, in the header or in the body, has the two issues that say so. */
  lemma NoWayToUnsubscribe(c: Settings, i: Input)
    requires Exemplary(c, i)
    ensures var j := i.(headers := i.headers.(listUnsubscribe := false),
                        content := i.content.(hasUnsubscribeLink := false));
            Verdict(c, j).issues == [Issue(ListUnsubMissing, 20), Issue(NoUnsub, 20)]
  {
    var j := i.(headers := i.headers.(listUnsubscribe := false));
    var k := j.(content := i.content.(hasUnsubscribeLink := false));
    HeaderDefect(c, i, NoListUnsubscribe);
    TwoIssues(c, j, k, STAGES);
  }

  lemma {:induction false} TwoIssues(c: Settings, j: Input, k: Input, n: nat)
    requires Lone(c, j, 5, Issue(ListUnsubMissing, 20)) && n <= STAGES
    requires k == j.(content := j.content.(hasUnsubscribeLink := false)) && !j.headers.listUnsubscribe
    ensures Issues(c, k, n)
         == (if n > 5 then [Issue(ListUnsubMissing, 20)] else []) + (if n > 17 then [Issue(NoUnsub, 20)] else [])
  {
    if n > 0 {
      TwoIssues(c, j, k, n - 1);
      UnsubscribeOnly(c, j, k, n - 1);
      assert n - 1 != 5 ==> Silent(c, j, n - 1);
    }
  }

  lemma UnsubscribeOnly(c: Settings, j: Input, k: Input, s: nat)
    requires k == j.(content := j.content.(hasUnsubscribeLink := false))
    ensures s != 17 ==> Deduction(c, k, s) == Deduction(c, j, s)
  {}

  // ----- There are exemplary mails -----

  const TAGS: seq<(string, string)> := [("p", "reject")]

  function Best(): Input {
    Input("d", Some("a.b"), Some("d"), Some("8.8.8.8"), true,
          Found("v=spf1 -all"), "pass", Signed(Some("s"), Some("d"), Found("k"), true), Record(Render(TAGS), "d"),
          Found("a.b"), Found(["8.8.8.8"]), l => NxDomain, j => NxDomain, Headers(true, true, true),
          Content(true, false, None, 0, 0, 0, 0, true, [], 1, false, 0), SpamError)
  }

  lemma BestPolicy()
    ensures Enforces(Best().policy)
  {
    assert Lower("p") == "p" && Strip("p", IsSpace) == "p" && Strip("reject", IsSpace) == "reject";
    assert Plain(TAGS[0]);
    TagRoundTrip(TAGS, "d", "p");
    LowerAt("reject");
    assert Lower("reject")[0] == 'r';
  }

  lemma BestConnection()
    ensures HeloClean(Best()) && ReverseClean(Best())
  {
    assert Bared("a.b") == "a.b";
    assert "a.b"[1] == '.' && "a.b"[0] == 'a';
    assert "8.8.8.8" in ["8.8.8.8"];
  }

  lemma BestAuthentication()
    ensures SpfVouches(Best()) && DkimVouches(Best()) && SpfClean(Best()) && DkimClean(Best())
  {
    assert '@' !in SpfSender(Best());
    assert SpfDomain(Best()) == "d";
  }

  lemma BestContent(c: Settings)
    ensures HeadersClean(Best()) && PartsClean(Best().content) && SubjectClean(Best().content)
    ensures Unlisted(c, Best()) && DomainsUnlisted(c, Best()) && SpamClean(c, Best().spam)
  {
    assert AfterLast("d", '@') == "d";
  }

  lemma BestIsExemplary(c: Settings)
    ensures Exemplary(c, Best())
  {
    BestAuthentication();
    BestPolicy();
    BestConnection();
    BestContent(c);
  }

  // ----- Rules that repeat a check -----

  /** A rule that repeats a check made already adds nothing, whatever points it gives. */
  lemma RepeatedChecksAddNothing(x: string, points: int)
    ensures !Hits(Rule(points, "SPF_" + x)) && !Hits(Rule(points, "T_SPF_" + x))
    ensures !Hits(Rule(points, "DKIM_" + x)) && !Hits(Rule(points, "T_DKIM_" + x)) && !Hits(Rule(points, "DKIMWL_" + x))
    ensures !Hits(Rule(points, "DMARC_" + x))
  {
    SkippedAddsNothing(0, x, points);
    SkippedAddsNothing(1, x, points);
    SkippedAddsNothing(2, x, points);
    SkippedAddsNothing(3, x, points);
    SkippedAddsNothing(4, x, points);
    SkippedAddsNothing(5, x, points);
  }

  lemma RepeatedLookupsAddNothing(x: string, points: int)
    ensures !Hits(Rule(points, "RCVD_IN_" + x)) && !Hits(Rule(points, "URIBL_" + x))
    ensures !Hits(Rule(points, "RDNS_" + x)) && !Hits(Rule(points, "HELO_" + x))
    ensures !Hits(Rule(points, "MISSING_DATE" + x)) && !Hits(Rule(points, "MISSING_MID" + x))
  {
    SkippedAddsNothing(6, x, points);
    SkippedAddsNothing(7, x, points);
    SkippedAddsNothing(8, x, points);
    SkippedAddsNothing(9, x, points);
    SkippedAddsNothing(10, x, points);
    SkippedAddsNothing(11, x, points);
  }

  lemma SkippedAddsNothing(k: nat, x: string, points: int)
    requires k < |SPAM_RULE_SKIP|
    ensures !Hits(Rule(points, SPAM_RULE_SKIP[k] + x))
  {
    assert StartsWith(SPAM_RULE_SKIP[k] + x, SPAM_RULE_SKIP[k]);
  }

  lemma RepeatedSubjectsAddNothing(x: string, points: int)
    ensures !Hits(Rule(points, "MISSING_SUBJECT" + x)) && !Hits(Rule(points, "NO_SUBJECT" + x))
    ensures !Hits(Rule(points, "NO_RELAYS" + x)) && !Hits(Rule(points, "ALL_TRUSTED" + x))
    ensures !Hits(Rule(points, "NO_RECEIVED" + x)) && !Hits(Rule(points, "SUBJ_ALL_CAPS" + x))
  {
    SkippedAddsNothing(12, x, points);
    SkippedAddsNothing(13, x, points);
    SkippedAddsNothing(14, x, points);
    SkippedAddsNothing(15, x, points);
    SkippedAddsNothing(16, x, points);
    SkippedAddsNothing(17, x, points);
  }

  lemma RepeatedContentAddsNothing(x: string, points: int)
    ensures !Hits(Rule(points, "HTML_IMAGE_ONLY" + x)) && !Hits(Rule(points, "HTML_IMAGE_RATIO" + x))
    ensures !Hits(Rule(points, "MIME_HTML_ONLY" + x)) && !Hits(Rule(points, "T_SHORT_SHORTNER" + x))
    ensures !Hits(Rule(points, "SHORT_SHORTNER" + x))
  {
    SkippedAddsNothing(18, x, points);
    SkippedAddsNothing(19, x, points);
    SkippedAddsNothing(20, x, points);
    SkippedAddsNothing(21, x, points);
    SkippedAddsNothing(22, x, points);
  }

  // ----- Forward confirmation -----

  /** The address joins a forward answer: that gives back half a point exactly when it was missing from it, and the name
      was found at all. */
  lemma ConfirmingAddress(c: Settings, i: Input, ip: string)
    requires i.publicIp == Some(ip) && ip != "" && i.forward.Found?
    ensures var j := i.(forward := Found(i.forward.values + [ip]));
            Raw(c, j) == Raw(c, i) + (if i.ptr.Found? && ip !in i.forward.values then 50 else 0)
  {
    var j := i.(forward := Found(i.forward.values + [ip]));
    RdnsMattersOnce(c, i, j);
    DeductedDifference(c, i, j, 9, 10, STAGES);
    assert ip in j.forward.values;
    ForwardOnly(c, i, j);
  }

  lemma ForwardOnly(c: Settings, i: Input, j: Input)
    requires j == i.(forward := j.forward) && i.publicIp.Some? && i.publicIp.value != ""
    requires i.forward.Found? && j.forward.Found? && i.publicIp.value in j.forward.values
    ensures Points(c, j, 9)
         == Points(c, i, 9) - (if i.ptr.Found? && i.publicIp.value !in i.forward.values then 50 else 0)
    ensures Points(c, j, 10) == Points(c, i, 10)
  {}
}

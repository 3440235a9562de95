/** Which mails lose nothing: the exact condition, in the terms of what the lookups and the message say. */
module CleanMail {
  import opened Prelude
  import opened Strings
  import opened Dmarc
  import opened Blacklists
  import opened Scoring
  import opened Analysis
  import opened Ledger

  predicate Given(o: Option<string>) { o.Some? && o.value != "" }

  // ----- Authentication -----

  /** SPF was evaluated: there is a record and a public address. */
  predicate SpfRan(i: Input) { i.spfRecord.Found? && Given(i.publicIp) }

  predicate SpfClean(i: Input) {
    || i.spfRecord.Failure?
    || (i.spfRecord.Found? && (SpfRan(i) ==> i.spfEvaluation == "pass" || i.spfEvaluation == ""))
  }

  /** A signature was verified or found wanting: it names a selector, and its key was found. */
  predicate DkimRan(i: Input) {
    i.signature.Signed? && Given(i.signature.selector) && i.signature.key.Found? && i.signature.key.values != ""
  }

  predicate DkimClean(i: Input) {
    && i.signature.Signed? && Given(i.signature.selector)
    && (i.signature.key.Failure? || (DkimRan(i) && i.signature.verifies))
  }

  /** The address SPF was evaluated for. */
  function SpfSender(i: Input): string {
    if Given(i.envelopeFrom) then i.envelopeFrom.value else "postmaster@" + i.domain
  }

  /** The domain of that address, or the From domain when it has none. */
  function SpfDomain(i: Input): string {
    if '@' in SpfSender(i) && Lower(Strip(AfterLast(SpfSender(i), '@'), IsSpace)) != ""
    then Lower(Strip(AfterLast(SpfSender(i), '@'), IsSpace)) else i.domain
  }

  ghost predicate SpfVouches(i: Input) {
    SpfRan(i) && i.spfEvaluation == "pass" && AlignedAs(SpfDomain(i), i.domain, Strict(i.policy, "aspf"))
  }

  ghost predicate DkimVouches(i: Input) {
    && DkimRan(i) && i.signature.verifies && i.signature.signingDomain.Some?
    && AlignedAs(i.signature.signingDomain.value, i.domain, Strict(i.policy, "adkim"))
  }

  /** The policy record asks receivers to do something. */
  predicate Enforces(policy: Discovery) {
    policy.Record? && Given(TagOf(policy, "p")) && Lower(TagOf(policy, "p").value) != "none"
  }

  ghost predicate DmarcClean(i: Input) {
    || i.policy.Unknown?
    || (i.policy.Record? && (SpfVouches(i) || DkimVouches(i)) && Enforces(i.policy))
    || (i.policy.Record? && !SpfRan(i) && !DkimRan(i))
  }

  // ----- Headers and connection -----

  predicate HeadersClean(i: Input) {
    && i.headers.messageId && i.headers.date && i.headers.listUnsubscribe
    && (Given(i.envelopeFrom) ==>
          var d := OrganizationalDomain(AfterLast(i.envelopeFrom.value, '@'));
          d == "" || d == OrganizationalDomain(i.domain))
  }

  /** A host name: dotted, and not a number with dots. */
  predicate HostName(bare: string) {
    && '.' in bare
    && ((exists ch | ch in bare :: ch != '.' && !('0' <= ch <= '9')) || (forall ch | ch in bare :: ch == '.'))
  }

  function Bared(helo: string): string { Strip(helo, ch => ch == '[' || ch == ']') }

  predicate HeloClean(i: Input) { Given(i.helo) ==> HostName(Bared(i.helo.value)) }

  /** The name the address maps to maps back to the address, and is the one the server greeted with. */
  predicate ReverseClean(i: Input) {
    Given(i.publicIp) ==>
      || i.ptr.Failure?
      || (&& i.ptr.Found?
          && (i.forward.Failure? || (i.forward.Found? && i.publicIp.value in i.forward.values))
          && (Given(i.helo) && i.ptr.values != "" ==> Lower(Bared(i.helo.value)) == Lower(i.ptr.values)))
  }

  /** No list that is asked names the address. */
  predicate Unlisted(c: Settings, i: Input) {
    Given(i.publicIp) ==>
      forall l | l in FirstN(DNSBL_LISTS, c.maxLists) :: !IpReplyStatus(l, i.ipReply(l)).Listed?
  }

  // ----- Content -----

  predicate PartsClean(t: Content) {
    && (t.hasHtml ==> t.hasPlain)
    && (t.textRatio.Some? ==> t.textRatio.value >= 50)
    && (t.imageCount == 0 || t.textLength >= 100)
    && t.imagesWithoutAlt == 0 && t.shortenedLinks == 0
  }

  predicate SubjectClean(t: Content) { t.subjectLength > 0 && !t.subjectAllCaps && t.subjectExclamations <= 2 }

  predicate DomainsUnlisted(c: Settings, i: Input) {
    forall d, l | d in Targets([i.domain] + i.content.linkHosts, c.maxDomains) && l in DOMAIN_DNSBL_LISTS ::
      !DomainReplyStatus(i.domainReply((d, l))).Listed?
  }

  /** A rule that adds to the penalty: it gives points, and repeats no check made already. */
  predicate Hits(r: Rule) { r.points > 0 && forall p | p in SPAM_RULE_SKIP :: !StartsWith(r.name, p) }

  predicate SpamClean(c: Settings, spam: SpamReport) {
    spam.SpamError? || !spam.hasScore || c.spamCap <= 0 || (forall r | r in spam.rules :: !Hits(r))
  }

  ghost predicate Clean(c: Settings, i: Input) {
    && SpfClean(i) && DkimClean(i) && DmarcClean(i)
    && HeadersClean(i) && i.tls && HeloClean(i) && ReverseClean(i) && Unlisted(c, i)
    && PartsClean(i.content) && SubjectClean(i.content) && DomainsUnlisted(c, i) && SpamClean(c, i.spam)
  }

  // ----- The stages -----

  predicate Silent(c: Settings, i: Input, k: nat) { Deduction(c, i, k).None? }

  lemma SpfSilent(i: Input)
    ensures SpfIssue(i).None? <==> SpfClean(i)
  {}

  lemma DkimSilent(i: Input)
    ensures DkimIssue(i).None? <==> DkimClean(i)
  {}

  lemma DmarcSilent(i: Input)
    ensures DmarcIssue(i).None? <==> DmarcClean(i)
  {
    SpfAlignment(i);
    DkimAlignment(i);
    if i.policy.Record? { Policies(i); }
  }

  lemma SpfAlignment(i: Input)
    ensures SpfAligned(i.domain, i.policy, CheckSpf(i)) <==> SpfVouches(i)
    ensures CheckSpf(i).result.Some? <==> SpfRan(i)
  {
    SpfAlignedExactly(i.domain, i.policy, CheckSpf(i));
  }

  lemma DkimAlignment(i: Input)
    ensures DkimAligned(i.domain, i.policy, CheckDkim(i)) <==> DkimVouches(i)
    ensures CheckDkim(i).verified.Some? <==> DkimRan(i)
  {
    DkimAlignedExactly(i.domain, i.policy, CheckDkim(i));
  }

  lemma Policies(i: Input)
    requires i.policy.Record?
    ensures Policy(i) != "none" <==> Enforces(i.policy)
  {
    assert Lower("none") == "none";
  }

  lemma HeadersSilent(c: Settings, i: Input)
    ensures (forall k: nat :: 3 <= k < 7 ==> Silent(c, i, k)) <==> HeadersClean(i)
  {
    assert Silent(c, i, 3) <==> i.headers.messageId;
    assert Silent(c, i, 4) <==> i.headers.date;
    assert Silent(c, i, 5) <==> i.headers.listUnsubscribe;
    assert Silent(c, i, 6) <==> EnvelopeIssue(i).None?;
  }

  lemma HostNames(bare: string)
    ensures IsFqdn(bare) <==> HostName(bare)
  {}

  lemma ConnectionSilent(c: Settings, i: Input)
    ensures Silent(c, i, 7) <==> i.tls
    ensures Silent(c, i, 8) <==> HeloClean(i)
    ensures Silent(c, i, 9) && Silent(c, i, 10) <==> ReverseClean(i)
  {
    assert Given(i.helo) ==> Bared(i.helo.value) == Unbracket(i.helo.value);
    if Given(i.helo) { HostNames(Bared(i.helo.value)); }
  }

  lemma NoneListed(c: Settings, reply: string -> Reply)
    ensures |IpListed(c, reply)| == 0 <==>
              forall l | l in FirstN(DNSBL_LISTS, c.maxLists) :: !IpReplyStatus(l, reply(l)).Listed?
  {
    var listed := IpListed(c, reply);
    forall l | l in FirstN(DNSBL_LISTS, c.maxLists) ensures l in listed <==> IpReplyStatus(l, reply(l)).Listed? {}
    if listed != {} {
      var l :| l in listed;
      assert l in FirstN(DNSBL_LISTS, c.maxLists);
    }
  }

  lemma ListsSilent(c: Settings, i: Input)
    ensures Silent(c, i, 11) <==> Unlisted(c, i)
  {
    NoneListed(c, i.ipReply);
    assert Deduction(c, i, 11) == DnsblIssue(c, i);
  }

  lemma PartsSilent(c: Settings, i: Input)
    ensures (forall k: nat :: 12 <= k < 17 ==> Silent(c, i, k)) <==> PartsClean(i.content)
    ensures i.headers.listUnsubscribe ==> Silent(c, i, 17)
  {
    assert Silent(c, i, 12) <==> (i.content.hasHtml ==> i.content.hasPlain);
    assert Silent(c, i, 13) <==> (i.content.textRatio.Some? ==> i.content.textRatio.value >= 50);
    assert Silent(c, i, 14) <==> (i.content.imageCount == 0 || i.content.textLength >= 100);
    assert Silent(c, i, 15) <==> i.content.imagesWithoutAlt == 0;
    assert Silent(c, i, 16) <==> i.content.shortenedLinks == 0;
  }

  lemma SubjectSilent(c: Settings, i: Input)
    ensures Silent(c, i, 18) && Silent(c, i, 19) <==> SubjectClean(i.content)
  {}

  lemma DomainsSilent(c: Settings, i: Input)
    ensures Silent(c, i, 20) <==> DomainsUnlisted(c, i)
  {
    var targets := Targets([i.domain] + i.content.linkHosts, c.maxDomains);
    var listed := DomainsListed(c, [i.domain] + i.content.linkHosts, i.domainReply);
    forall d, l | d in targets && l in DOMAIN_DNSBL_LISTS
      ensures (d, l) in listed <==> DomainReplyStatus(i.domainReply((d, l))).Listed?
    {
      assert (d, l) in Jobs(targets, DOMAIN_DNSBL_LISTS);
    }
    assert listed == {} <==> DomainsUnlisted(c, i);
    assert Silent(c, i, 20) <==> |listed| == 0;
  }

  lemma {:induction false} PointsAreHits(rules: seq<Rule>)
    ensures CountedPoints(rules) >= 0
    ensures CountedPoints(rules) == 0 <==> forall r | r in rules :: !Hits(r)
  {
    if rules != [] {
      var front, last := rules[..|rules| - 1], rules[|rules| - 1];
      assert rules == front + [last];
      PointsAreHits(front);
      assert Counted(last) <==> Hits(last);
    }
  }

  lemma SpamSilent(c: Settings, i: Input)
    ensures Silent(c, i, 21) <==> SpamClean(c, i.spam)
  {
    if i.spam.SpamReport? { PointsAreHits(i.spam.rules); }
  }

  /** A mail has no issue, and keeps ten points, exactly when it is clean. */
  lemma CleanExactly(c: Settings, i: Input)
    ensures Verdict(c, i).issues == [] <==> Clean(c, i)
    ensures Verdict(c, i).score == FULL <==> Clean(c, i)
  {
    TenExactlyWithoutIssues(c, i);
    NothingIssued(c, i, STAGES);
    StagesSilent(c, i);
  }

  lemma {:induction false} NothingIssued(c: Settings, i: Input, n: nat)
    ensures Issues(c, i, n) == [] <==> forall k: nat :: k < n ==> Silent(c, i, k)
  {
    if n > 0 {
      NothingIssued(c, i, n - 1);
      assert Issues(c, i, n) == [] <==> Issues(c, i, n - 1) == [] && Silent(c, i, n - 1);
      assert (forall k: nat :: k < n ==> Silent(c, i, k)) <==>
               (forall k: nat :: k < n - 1 ==> Silent(c, i, k)) && Silent(c, i, n - 1);
    }
  }

  lemma AuthenticationSilent(c: Settings, i: Input)
    ensures Silent(c, i, 0) <==> SpfClean(i)
    ensures Silent(c, i, 1) <==> DkimClean(i)
    ensures Silent(c, i, 2) <==> DmarcClean(i)
  {
    SpfSilent(i);
    DkimSilent(i);
    DmarcSilent(i);
  }

  lemma StagesSilent(c: Settings, i: Input)
    ensures (forall k: nat :: k < STAGES ==> Silent(c, i, k)) <==> Clean(c, i)
  {
    AuthenticationSilent(c, i);
    HeadersSilent(c, i);
    ConnectionSilent(c, i);
    ListsSilent(c, i);
    PartsSilent(c, i);
    SubjectSilent(c, i);
    DomainsSilent(c, i);
    SpamSilent(c, i);
    AllStages(c, i);
  }

  /** Every stage is one of those above. */
  lemma AllStages(c: Settings, i: Input)
    ensures (forall k: nat :: k < STAGES ==> Silent(c, i, k)) <==>
              && Silent(c, i, 0) && Silent(c, i, 1) && Silent(c, i, 2)
              && (forall k: nat :: 3 <= k < 7 ==> Silent(c, i, k))
              && Silent(c, i, 7) && Silent(c, i, 8) && Silent(c, i, 9) && Silent(c, i, 10) && Silent(c, i, 11)
              && (forall k: nat :: 12 <= k < 17 ==> Silent(c, i, k)) && Silent(c, i, 17)
              && Silent(c, i, 18) && Silent(c, i, 19) && Silent(c, i, 20) && Silent(c, i, 21)
  {
    assert (forall k: nat :: 3 <= k < 7 ==> Silent(c, i, k)) && (forall k: nat :: 12 <= k < 17 ==> Silent(c, i, k)) ==>
             forall k: nat :: k < STAGES && k !in {0, 1, 2, 7, 8, 9, 10, 11, 17, 18, 19, 20, 21} ==> Silent(c, i, k);
  }
}

/** The analysis as it runs: each check in turn takes its points off one mutable score. */
module Analyzer {
  import opened Prelude
  import opened Strings
  import opened Dmarc
  import opened Blacklists
  import opened Scoring
  import opened Analysis
  import opened Ledger

  /** Up to stage n the score carries exactly the issues of the ledger. */
  ghost predicate At(c: Settings, i: Input, score: Score, n: nat)
    reads score
  {
    score.Balanced() && score.items == Issues(c, i, n)
  }

  /** Take points off under a condition that stage k shares. */
  method MinusWhen(c: Settings, i: Input, score: Score, ghost k: nat, when: bool, points: int, code: Code)
    requires At(c, i, score, k) && Deduction(c, i, k) == If(when, code, points)
    modifies score
    ensures At(c, i, score, k + 1)
  {
    if when {
      score.Minus(points, code);
    }
  }

  method SpfCheck(c: Settings, i: Input, score: Score)
    requires At(c, i, score, 0)
    modifies score
    ensures At(c, i, score, 1)
  {
    var spf := CheckSpf(i);
    if i.spfRecord.Failure? {
    } else if i.spfRecord.NoRecord? {
      score.Minus(200, SpfMissing);
    } else if Present(spf.result) && spf.result.value != "pass" {
      score.Minus(SpfPenalty(spf.result.value), SpfResult(spf.result.value));
    }
  }

  method DkimCheck(c: Settings, i: Input, score: Score)
    requires At(c, i, score, 1)
    modifies score
    ensures At(c, i, score, 2)
  {
    match i.signature
    case Unsigned => score.Minus(150, DkimMissing);
    case Signed(selector, _, key, verifies) =>
      if !Present(selector) {
        score.Minus(100, DkimBroken);
      } else if key.Failure? {
      } else if key.NoRecord? || key.values == "" {
        score.Minus(150, DkimNoKey);
      } else if !verifies {
        score.Minus(150, DkimInvalid);
      }
  }

  method DmarcCheck(c: Settings, i: Input, score: Score)
    requires At(c, i, score, 2)
    modifies score
    ensures At(c, i, score, 3)
  {
    var dmarc := CheckDmarc(i);
    if dmarc.Undecided? {
    } else if dmarc.NoneFound? {
      score.Minus(100, DmarcMissing);
    } else if !dmarc.Pass? {
      score.Minus(100, DmarcFail);
    } else if Policy(i) == "none" {
      score.Minus(30, DmarcPolicyNone);
    }
  }

  method AuthenticationChecks(c: Settings, i: Input, score: Score)
    requires At(c, i, score, 0)
    modifies score
    ensures At(c, i, score, 3)
  {
    SpfCheck(c, i, score);
    DkimCheck(c, i, score);
    DmarcCheck(c, i, score);
  }

  method HeaderChecks(c: Settings, i: Input, score: Score)
    requires At(c, i, score, 3)
    modifies score
    ensures At(c, i, score, 7)
  {
    MinusWhen(c, i, score, 3, !i.headers.messageId, 50, MessageIdMissing);
    MinusWhen(c, i, score, 4, !i.headers.date, 50, DateMissing);
    MinusWhen(c, i, score, 5, !i.headers.listUnsubscribe, 20, ListUnsubMissing);
    var fromDomain := OrganizationalDomain(i.domain);
    var envelopeDomain := OrganizationalDomain(AfterLast(OrElse(i.envelopeFrom, ""), '@'));
    MinusWhen(c, i, score, 6, Present(i.envelopeFrom) && envelopeDomain != "" && fromDomain != envelopeDomain,
              30, EnvelopeMismatch);
  }

  method RdnsCheck(c: Settings, i: Input, score: Score)
    requires At(c, i, score, 9) && Present(i.publicIp)
    modifies score
    ensures At(c, i, score, 11)
  {
    if i.ptr.Failure? {
    } else if i.ptr.NoRecord? {
      score.Minus(50, RdnsMissing);
    } else if i.forward.NoRecord? || (i.forward.Found? && i.publicIp.value !in i.forward.values) {
      score.Minus(50, RdnsNoMatch);
    }
    assert At(c, i, score, 10);
    var compared := Present(i.helo) && i.ptr.Found? && i.ptr.values != "";
    MinusWhen(c, i, score, 10, compared && Lower(Unbracket(i.helo.value)) != Lower(i.ptr.values), 20, HeloRdnsMismatch);
  }

  /** `order` is the completion order of the blacklist threads. */
  method CountIpListings(c: Settings, ip: string, reply: string -> Reply, order: seq<string>) returns (n: nat)
    requires ip != "" && Completes(order, FirstN(DNSBL_LISTS, c.maxLists))
    ensures n == |IpListed(c, reply)|
  {
    var bl := CheckBlacklists(ip, FirstN(DNSBL_LISTS, c.maxLists), order, reply);
    var listedOn := set k | k in bl.results && bl.results[k].Listed?;
    assert listedOn == IpListed(c, reply);
    n := |listedOn|;
  }

  method CountDomainListings(c: Settings, domains: seq<string>, reply: Job -> Reply, order: seq<Job>) returns (n: nat)
    requires NoRepeats(order) && SetOf(order) == Jobs(Targets(domains, c.maxDomains), DOMAIN_DNSBL_LISTS)
    ensures n == |DomainsListed(c, domains, reply)|
  {
    var bl := CheckDomainBlacklists(domains, c.maxDomains, DOMAIN_DNSBL_LISTS, order, DomainStatusOf(reply));
    SizeWithoutRepeats(bl.listed);
    n := |bl.listed|;
  }

  method BlacklistCheck(c: Settings, i: Input, score: Score, order: seq<string>)
    requires At(c, i, score, 11) && Present(i.publicIp) && IpLookupsDone(c, order)
    modifies score
    ensures At(c, i, score, 12)
  {
    var n := CountIpListings(c, i.publicIp.value, i.ipReply, order);
    assert Deduction(c, i, 11) == DnsblIssue(c, i);
    MinusWhen(c, i, score, 11, n > 0, Min(200, 40 * n), DnsblListed);
  }

  method ConnectionChecks(c: Settings, i: Input, score: Score, order: seq<string>)
    requires At(c, i, score, 7) && IpLookupsDone(c, order)
    modifies score
    ensures At(c, i, score, 12)
  {
    MinusWhen(c, i, score, 7, !i.tls, 50, TlsMissing);
    MinusWhen(c, i, score, 8, Present(i.helo) && !IsFqdn(Unbracket(i.helo.value)), 30, HeloNotFqdn);
    if Present(i.publicIp) {
      RdnsCheck(c, i, score);
      BlacklistCheck(c, i, score, order);
    } else {
      NothingWithoutAddress(c, i);
    }
  }

  lemma NothingWithoutAddress(c: Settings, i: Input)
    requires !Present(i.publicIp)
    ensures Issues(c, i, 12) == Issues(c, i, 9)
  {
    assert Issues(c, i, 10) == Issues(c, i, 9);
    assert Issues(c, i, 11) == Issues(c, i, 10);
  }

  method PartChecks(c: Settings, i: Input, score: Score)
    requires At(c, i, score, 12)
    modifies score
    ensures At(c, i, score, 15)
  {
    var t := i.content;
    MinusWhen(c, i, score, 12, t.hasHtml && !t.hasPlain, 50, NoPlain);
    MinusWhen(c, i, score, 13, t.textRatio.Some? && t.textRatio.value < 50, 50, LowText);
    MinusWhen(c, i, score, 14, t.imageCount > 0 && t.textLength < 100, 50, ImageOnly);
  }

  method LinkChecks(c: Settings, i: Input, score: Score)
    requires At(c, i, score, 15)
    modifies score
    ensures At(c, i, score, 18)
  {
    var t := i.content;
    MinusWhen(c, i, score, 15, t.imagesWithoutAlt > 0, 20, ImgNoAlt);
    MinusWhen(c, i, score, 16, t.shortenedLinks > 0, 50, ShortLinks);
    MinusWhen(c, i, score, 17, !t.hasUnsubscribeLink && !i.headers.listUnsubscribe, 20, NoUnsub);
  }

  method SubjectCheck(c: Settings, i: Input, score: Score)
    requires At(c, i, score, 18)
    modifies score
    ensures At(c, i, score, 20)
  {
    if i.content.subjectLength == 0 {
      score.Minus(50, SubjectEmpty);
    } else if i.content.subjectAllCaps {
      score.Minus(30, SubjectAllCaps);
    }
    assert At(c, i, score, 19);
    MinusWhen(c, i, score, 19, i.content.subjectExclamations > 2, 20, SubjectExclaim);
  }

  method ContentChecks(c: Settings, i: Input, score: Score)
    requires At(c, i, score, 12)
    modifies score
    ensures At(c, i, score, 20)
  {
    PartChecks(c, i, score);
    LinkChecks(c, i, score);
    SubjectCheck(c, i, score);
  }

  method DomainListCheck(c: Settings, i: Input, score: Score, order: seq<Job>)
    requires At(c, i, score, 20) && NoRepeats(order)
    requires SetOf(order) == Jobs(Targets([i.domain] + i.content.linkHosts, c.maxDomains), DOMAIN_DNSBL_LISTS)
    modifies score
    ensures At(c, i, score, 21)
  {
    var n := CountDomainListings(c, [i.domain] + i.content.linkHosts, i.domainReply, order);
    assert Deduction(c, i, 20) == UriblIssue(c, i);
    MinusWhen(c, i, score, 20, n > 0, Min(200, 100 * n), UriblListed);
  }

  /** Each blacklist lookup completes exactly once, in some order. */
  predicate IpLookupsDone(c: Settings, order: seq<string>) { Completes(order, FirstN(DNSBL_LISTS, c.maxLists)) }

  predicate DomainLookupsDone(c: Settings, i: Input, order: seq<Job>) {
    && NoRepeats(order)
    && SetOf(order) == Jobs(Targets([i.domain] + i.content.linkHosts, c.maxDomains), DOMAIN_DNSBL_LISTS)
  }

  method MessageChecks(c: Settings, i: Input, score: Score, order: seq<Job>)
    requires At(c, i, score, 12) && DomainLookupsDone(c, i, order)
    modifies score
    ensures At(c, i, score, STAGES)
  {
    ContentChecks(c, i, score);
    DomainListCheck(c, i, score, order);
    var penalty := SpamPenalty(c, i.spam);
    MinusWhen(c, i, score, 21, penalty > 0, penalty, SpamRules);
  }

  lemma BalancedScoreIsVerdict(c: Settings, i: Input)
    ensures var raw := FULL - Sum(Issues(c, i, STAGES));
            Verdict(c, i) == Outcome(Reported(raw), GradeOf(Reported(raw)), Issues(c, i, STAGES))
  {
    LedgerIsExact(c, i, STAGES);
  }

  /** Whatever order the lookups finish in, the analysis ends with the verdict of the ledger. */
  method Analyze(c: Settings, i: Input, ipOrder: seq<string>, domainOrder: seq<Job>) returns (r: Outcome)
    requires IpLookupsDone(c, ipOrder) && DomainLookupsDone(c, i, domainOrder)
    ensures r == Verdict(c, i)
  {
    var score := new Score();
    AuthenticationChecks(c, i, score);
    HeaderChecks(c, i, score);
    ConnectionChecks(c, i, score, ipOrder);
    MessageChecks(c, i, score, domainOrder);
    BalancedScoreIsVerdict(c, i);
    r := score.Result();
  }
}

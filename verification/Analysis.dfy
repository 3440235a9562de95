/** The verdict engine: which deduction each check makes, given what the lookups and the message say. */
module Analysis {
  import opened Prelude
  import opened Strings
  import opened Dmarc
  import opened Blacklists
  import opened Scoring

  // ----- What the engine is given -----

  /** A DKIM signature header as read, the lookup of its key, and whether the signature verifies under that key. */
  datatype Signature =
    | Unsigned
    | Signed(selector: Option<string>, signingDomain: Option<string>, key: Dns<string>, verifies: bool)

  datatype Headers = Headers(messageId: bool, date: bool, listUnsubscribe: bool)

  datatype Content = Content(
    hasPlain: bool,
    hasHtml: bool,
    textRatio: Option<int>,        // in thousandths
    textLength: nat,
    imageCount: nat,
    imagesWithoutAlt: nat,
    shortenedLinks: nat,
    hasUnsubscribeLink: bool,
    linkHosts: seq<string>,
    subjectLength: nat,
    subjectAllCaps: bool,
    subjectExclamations: nat)

  /** Exclamation marks are characters of the subject. */
  predicate SubjectFits(content: Content) { content.subjectExclamations <= content.subjectLength }

  /** Contents the inspection of a message can report: shortened links are links, and images without ALT are images. */
  predicate Plausible(content: Content) {
    && SubjectFits(content)
    && content.shortenedLinks <= |content.linkHosts|
    && content.imagesWithoutAlt <= content.imageCount
  }

  datatype Rule = Rule(points: int, name: string)

  datatype SpamReport = SpamError | SpamReport(hasScore: bool, rules: seq<Rule>)

  datatype Input = Input(
    domain: string,
    helo: Option<string>,
    envelopeFrom: Option<string>,
    publicIp: Option<string>,
    tls: bool,
    spfRecord: Dns<string>,        // is there an SPF record for the From domain
    spfEvaluation: string,         // what evaluating it against the address returns
    signature: Signature,
    policy: Discovery,
    ptr: Dns<string>,
    forward: Dns<seq<string>>,
    ipReply: string -> Reply,
    domainReply: Job -> Reply,
    headers: Headers,
    content: Content,
    spam: SpamReport)

  datatype Settings = Settings(spamCap: int, maxLists: int, maxDomains: int)

  predicate Present(o: Option<string>) { o.Some? && o.value != "" }

  // ----- The checks -----

  /** Evaluated only with a record and a public address. */
  function CheckSpf(i: Input): SpfView {
    if i.spfRecord.Found? && Present(i.publicIp)
    then SpfView(Some(i.spfEvaluation), Some(OrElse(i.envelopeFrom, "postmaster@" + i.domain)))
    else SpfView(None, None)
  }

  function CheckDkim(i: Input): DkimView {
    match i.signature
    case Unsigned => DkimView(None, None)
    case Signed(selector, domain, key, verifies) =>
      if Present(selector) && key.Found? && key.values != "" then DkimView(Some(verifies), domain)
      else DkimView(None, domain)
  }

  function CheckDmarc(i: Input): DmarcResult { DmarcVerdict(i.domain, i.policy, CheckSpf(i), CheckDkim(i)) }

  function Policy(i: Input): string { Lower(OrElse(TagOf(i.policy, "p"), "none")) }

  function SpfPenalty(result: string): int {
    if result == "fail" then 200
    else if result == "softfail" || result == "permerror" then 100
    else if result == "temperror" then 30
    else 50
  }

  function Unbracket(helo: string): string { Strip(helo, ch => ch == '[' || ch == ']') }

  predicate IsDigit(ch: char) { '0' <= ch <= '9' }

  /** A dot in it, and not digits only. */
  predicate IsFqdn(bare: string) {
    '.' in bare && !((forall ch | ch in bare :: ch == '.' || IsDigit(ch)) && (exists ch | ch in bare :: ch != '.'))
  }

  function IpListed(c: Settings, reply: string -> Reply): set<string> {
    With(SetOf(FirstN(DNSBL_LISTS, c.maxLists)), IpStatusOf(reply), Listed)
  }

  function DomainStatusOf(reply: Job -> Reply): Job -> Status { j => DomainReplyStatus(reply(j)) }

  function DomainsListed(c: Settings, domains: seq<string>, reply: Job -> Reply): set<Job> {
    ListedJobs(Jobs(Targets(domains, c.maxDomains), DOMAIN_DNSBL_LISTS), DomainStatusOf(reply))
  }

  const SPAM_RULE_SKIP: seq<string> := [
    "SPF_", "T_SPF_", "DKIM_", "T_DKIM_", "DKIMWL_", "DMARC_", "RCVD_IN_", "URIBL_", "RDNS_", "HELO_", "MISSING_DATE",
    "MISSING_MID", "MISSING_SUBJECT", "NO_SUBJECT", "NO_RELAYS", "ALL_TRUSTED", "NO_RECEIVED", "SUBJ_ALL_CAPS",
    "HTML_IMAGE_ONLY", "HTML_IMAGE_RATIO", "MIME_HTML_ONLY", "T_SHORT_SHORTNER", "SHORT_SHORTNER"]

  predicate Counted(r: Rule) { r.points > 0 && !(exists p | p in SPAM_RULE_SKIP :: StartsWith(r.name, p)) }

  function CountedPoints(rules: seq<Rule>): int {
    if rules == [] then 0
    else CountedPoints(rules[..|rules| - 1]) + (if Counted(rules[|rules| - 1]) then rules[|rules| - 1].points else 0)
  }

  function SpamPenalty(c: Settings, spam: SpamReport): int {
    if spam.SpamError? || !spam.hasScore || CountedPoints(spam.rules) == 0 then 0
    else Min(c.spamCap, CountedPoints(spam.rules))
  }

  // ----- The deductions, in order -----

  const STAGES: nat := 22

  function If(b: bool, code: Code, points: int): Option<Issue> { if b then Some(Issue(code, points)) else None }

  function SpfIssue(i: Input): Option<Issue> {
    var result := CheckSpf(i).result;
    if i.spfRecord.Failure? then None
    else if i.spfRecord.NoRecord? then Some(Issue(SpfMissing, 200))
    else If(Present(result) && result.value != "pass", SpfResult(OrElse(result, "")), SpfPenalty(OrElse(result, "")))
  }

  function DkimIssue(i: Input): Option<Issue> {
    match i.signature
    case Unsigned => Some(Issue(DkimMissing, 150))
    case Signed(selector, _, key, verifies) =>
      if !Present(selector) then Some(Issue(DkimBroken, 100))
      else if key.Failure? then None
      else if key.NoRecord? || key.values == "" then Some(Issue(DkimNoKey, 150))
      else If(!verifies, DkimInvalid, 150)
  }

  function DmarcIssue(i: Input): Option<Issue> {
    var r := CheckDmarc(i);
    if r.Undecided? then None
    else if r.NoneFound? then Some(Issue(DmarcMissing, 100))
    else if r.Fail? then Some(Issue(DmarcFail, 100))
    else If(Policy(i) == "none", DmarcPolicyNone, 30)
  }

  function EnvelopeIssue(i: Input): Option<Issue> {
    var envelope := OrganizationalDomain(AfterLast(OrElse(i.envelopeFrom, ""), '@'));
    If(Present(i.envelopeFrom) && envelope != "" && OrganizationalDomain(i.domain) != envelope, EnvelopeMismatch, 30)
  }

  function RdnsIssue(i: Input): Option<Issue> {
    if !Present(i.publicIp) || i.ptr.Failure? then None
    else if i.ptr.NoRecord? then Some(Issue(RdnsMissing, 50))
    else
      var mismatch := i.forward.NoRecord? || (i.forward.Found? && i.publicIp.value !in i.forward.values);
      If(mismatch, RdnsNoMatch, 50)
  }

  function HeloRdnsIssue(i: Input): Option<Issue> {
    var compared := Present(i.publicIp) && Present(i.helo) && i.ptr.Found? && i.ptr.values != "";
    If(compared && Lower(Unbracket(i.helo.value)) != Lower(i.ptr.values), HeloRdnsMismatch, 20)
  }

  function DnsblIssue(c: Settings, i: Input): Option<Issue> {
    var n := |IpListed(c, i.ipReply)|;
    If(Present(i.publicIp) && n > 0, DnsblListed, Min(200, 40 * n))
  }

  function SubjectIssue(content: Content): Option<Issue> {
    if content.subjectLength == 0 then Some(Issue(SubjectEmpty, 50))
    else If(content.subjectAllCaps, SubjectAllCaps, 30)
  }

  function UriblIssue(c: Settings, i: Input): Option<Issue> {
    var n := |DomainsListed(c, [i.domain] + i.content.linkHosts, i.domainReply)|;
    If(n > 0, UriblListed, Min(200, 100 * n))
  }

  function HeaderIssue(i: Input, k: nat): Option<Issue> {
    if k == 3 then If(!i.headers.messageId, MessageIdMissing, 50)
    else if k == 4 then If(!i.headers.date, DateMissing, 50)
    else if k == 5 then If(!i.headers.listUnsubscribe, ListUnsubMissing, 20)
    else EnvelopeIssue(i)
  }

  function ConnectionIssue(c: Settings, i: Input, k: nat): Option<Issue> {
    if k == 7 then If(!i.tls, TlsMissing, 50)
    else if k == 8 then If(Present(i.helo) && !IsFqdn(Unbracket(i.helo.value)), HeloNotFqdn, 30)
    else if k == 9 then RdnsIssue(i)
    else if k == 10 then HeloRdnsIssue(i)
    else DnsblIssue(c, i)
  }

  function BodyIssue(t: Content, listUnsubscribe: bool, k: nat): Option<Issue> {
    if k == 12 then If(t.hasHtml && !t.hasPlain, NoPlain, 50)
    else if k == 13 then If(t.textRatio.Some? && t.textRatio.value < 50, LowText, 50)
    else if k == 14 then If(t.imageCount > 0 && t.textLength < 100, ImageOnly, 50)
    else if k == 15 then If(t.imagesWithoutAlt > 0, ImgNoAlt, 20)
    else if k == 16 then If(t.shortenedLinks > 0, ShortLinks, 50)
    else If(!t.hasUnsubscribeLink && !listUnsubscribe, NoUnsub, 20)
  }

  function SpamIssue(c: Settings, i: Input): Option<Issue> {
    If(SpamPenalty(c, i.spam) > 0, SpamRules, SpamPenalty(c, i.spam))
  }

  /** The deduction of stage k, if it makes one. */
  function Deduction(c: Settings, i: Input, k: nat): Option<Issue> {
    if k == 0 then SpfIssue(i)
    else if k == 1 then DkimIssue(i)
    else if k == 2 then DmarcIssue(i)
    else if k < 7 then HeaderIssue(i, k)
    else if k < 12 then ConnectionIssue(c, i, k)
    else if k < 18 then BodyIssue(i.content, i.headers.listUnsubscribe, k)
    else if k == 18 then SubjectIssue(i.content)
    else if k == 19 then If(i.content.subjectExclamations > 2, SubjectExclaim, 20)
    else if k == 20 then UriblIssue(c, i)
    else if k == 21 then SpamIssue(c, i)
    else None
  }

  function Cost(issue: Option<Issue>): int { if issue.Some? then issue.value.points else 0 }

  function Points(c: Settings, i: Input, k: nat): int { Cost(Deduction(c, i, k)) }

  /** The issues of the first n stages. */
  function Issues(c: Settings, i: Input, n: nat): seq<Issue> {
    if n == 0 then []
    else
      Issues(c, i, n - 1) + (if Deduction(c, i, n - 1).Some? then [Deduction(c, i, n - 1).value] else [])
  }

  function Deducted(c: Settings, i: Input, n: nat): int {
    if n == 0 then 0 else Deducted(c, i, n - 1) + Points(c, i, n - 1)
  }

  function Raw(c: Settings, i: Input): int { FULL - Deducted(c, i, STAGES) }
}

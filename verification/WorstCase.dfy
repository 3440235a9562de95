/** A mail that loses every point there is to lose: the ceiling on deductions is reached. */
module WorstCase {
  import opened Prelude
  import opened Strings
  import opened Dmarc
  import opened Blacklists
  import opened Scoring
  import opened Analysis
  import opened Ledger

  const LISTING: string := "127.0.0.2"

  /** Unauthenticated, sent from a public address that is listed everywhere, delivered badly and written badly. */
  function Worst(c: Settings): Input {
    Input(
      "a", Some("h"), Some("b"), Some("8.8.8.8"), false,
      NoRecord, "none", Unsigned, NoPolicy, Found("p"), NoRecord,
      l => Addresses([LISTING]), j => Addresses([LISTING]),
      Headers(false, false, false),
      Content(false, true, Some(0), 0, 1, 1, 1, false, ["bit.ly"], 5, true, 3),
      SpamReport(true, [Rule(c.spamCap + 1, "A")]))
  }

  lemma ListingLists(dnsbl: string)
    ensures IpStatus(dnsbl, [LISTING]) == Listed && DomainStatus([LISTING]) == Listed
  {
    assert LISTING in [LISTING];
    assert |LISTING| == 9 && |REFUSED_PREFIX| == 12;
    assert !StartsWith(LISTING, REFUSED_PREFIX);
    assert LISTING in ListedCodes(dnsbl);
    assert LISTING[8] == '2' && "127.0.0.1"[8] == '1';
    assert !DomainRefused(LISTING) && DomainListed(LISTING);
  }

  lemma FirstLists()
    ensures |DNSBL_LISTS| == 27 && NoRepeats(DNSBL_LISTS[..5])
    ensures |DOMAIN_DNSBL_LISTS| == 4 && DOMAIN_DNSBL_LISTS[0] != DOMAIN_DNSBL_LISTS[1]
  {
    assert DNSBL_LISTS[0][0] == 'z' && DNSBL_LISTS[1][1] == 'l' && DNSBL_LISTS[2][0] == 'd';
    assert DNSBL_LISTS[3][1] == '.' && DNSBL_LISTS[4][0] == 'c' && DNSBL_LISTS[1][0] == DNSBL_LISTS[3][0] == 'b';
    assert DOMAIN_DNSBL_LISTS[0][0] == 'd' && DOMAIN_DNSBL_LISTS[1][0] == 'm';
  }

  lemma AddressIsListed(c: Settings)
    requires c.maxLists >= 5
    ensures |IpListed(c, Worst(c).ipReply)| >= 5
  {
    var reply := Worst(c).ipReply;
    var lists := FirstN(DNSBL_LISTS, c.maxLists);
    var five := DNSBL_LISTS[..5];
    FirstLists();
    SizeWithoutRepeats(five);
    forall l | l in SetOf(five) ensures l in IpListed(c, reply) {
      assert lists[..5] == five;
      assert l in lists;
      ListingLists(l);
    }
    SubsetCardinality(SetOf(five), IpListed(c, reply));
  }

  lemma DomainIsListed(c: Settings)
    requires c.maxDomains >= 1
    ensures |DomainsListed(c, ["a"] + ["bit.ly"], Worst(c).domainReply)| >= 2
  {
    var reply := Worst(c).domainReply;
    var first, second := DOMAIN_DNSBL_LISTS[0], DOMAIN_DNSBL_LISTS[1];
    SenderIsChecked("a", ["bit.ly"], c.maxDomains);
    FirstLists();
    ListingLists(first);
    var two: set<Job> := {("a", first), ("a", second)};
    assert |two| == 2;
    assert two <= DomainsListed(c, ["a"] + ["bit.ly"], reply);
    SubsetCardinality(two, DomainsListed(c, ["a"] + ["bit.ly"], reply));
  }

  lemma PrefixesAreLonger(k: nat)
    requires k < |SPAM_RULE_SKIP|
    ensures |SPAM_RULE_SKIP[k]| > 1
  {}

  lemma WorstIsSpam(c: Settings)
    requires c.spamCap >= 0
    ensures SpamPenalty(c, Worst(c).spam) == c.spamCap
  {
    var rule := Rule(c.spamCap + 1, "A");
    forall p | p in SPAM_RULE_SKIP ensures !StartsWith(rule.name, p) {
      var k: nat :| k < |SPAM_RULE_SKIP| && SPAM_RULE_SKIP[k] == p;
      PrefixesAreLonger(k);
    }
    assert Counted(rule);
    assert [rule][..0] == [];
    assert CountedPoints([rule]) == CountedPoints([rule][..0]) + rule.points;
  }

  /** A name of one lower-case letter is its own organisation. */
  lemma OneLabel(name: string)
    requires |name| == 1 && 'a' <= name[0] <= 'z'
    ensures OrganizationalDomain(name) == name
  {
    NoDots(name);
    assert Stripped(name, IsDot) && IsLower(name);
    StripIsStripped(name, IsDot);
    LowerIsLower(name);
  }

  lemma WorstNames()
    ensures Unbracket("h") == "h" && Lower("h") != Lower("p")
    ensures OrganizationalDomain(AfterLast("b", '@')) == "b" && OrganizationalDomain("a") == "a"
  {
    assert Lower("h") == "h" && Lower("p") == "p";
    OneLabel("a");
    OneLabel("b");
  }

  /** What each stage costs it: the most, but for the subject, whose two deductions cannot both be at their most. */
  function Costs(c: Settings, k: nat): int { if k == 18 then 30 else Most(c, k) }

  lemma EarlyStages(c: Settings, k: nat)
    requires k < 9
    ensures Points(c, Worst(c), k) == Costs(c, k)
  {
    WorstNames();
  }

  lemma ListStages(c: Settings, k: nat)
    requires 9 <= k < 12 && c.maxLists >= 5
    ensures Points(c, Worst(c), k) == Costs(c, k)
  {
    WorstNames();
    AddressIsListed(c);
  }

  lemma ContentStages(c: Settings, k: nat)
    requires 12 <= k < 20
    ensures Points(c, Worst(c), k) == Costs(c, k)
  {}

  lemma LastStages(c: Settings, k: nat)
    requires 20 <= k < 22 && c.spamCap >= 0 && c.maxDomains >= 1
    ensures Points(c, Worst(c), k) == Costs(c, k)
  {
    DomainIsListed(c);
    WorstIsSpam(c);
  }

  lemma {:induction false} WorstDeducted(c: Settings, n: nat)
    requires n <= STAGES && c.spamCap >= 0 && c.maxLists >= 5 && c.maxDomains >= 1
    ensures Deducted(c, Worst(c), n) == MostBefore(c, n) - (if n > 18 then 20 else 0)
  {
    if n > 0 {
      WorstDeducted(c, n - 1);
      if n - 1 < 9 {
        EarlyStages(c, n - 1);
      } else if n - 1 < 12 {
        ListStages(c, n - 1);
      } else if n - 1 < 20 {
        ContentStages(c, n - 1);
      } else {
        LastStages(c, n - 1);
      }
    }
  }

  /** A plausible mail loses 14.4 points and the whole cap, whatever the cap, when at least five lists and one domain
      are checked: the ceiling cannot be lowered. */
  lemma TotalIsReached(c: Settings)
    requires c.spamCap >= 0 && c.maxLists >= 5 && c.maxDomains >= 1
    ensures Plausible(Worst(c).content) && Deducted(c, Worst(c), STAGES) == 1440 + c.spamCap
  {
    WorstDeducted(c, STAGES);
    MostOfEighteen(c);
    assert MostBefore(c, 20) == 1190 + Most(c, 18) + Most(c, 19);
    assert MostBefore(c, 22) == MostBefore(c, 20) + Most(c, 20) + Most(c, 21);
  }
}

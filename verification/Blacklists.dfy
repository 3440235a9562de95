/**
 IP and domain blacklists. One lookup per list runs on a thread pool, and the answers are folded in whatever order the
 threads finish; the outcome does not depend on that order.
 */
module Blacklists {
  import opened Prelude
  import opened Strings

  datatype Status = Listed | NotListed | Reputation | TimedOut | Blocked | Errored

  /** What one lookup of a list returns. */
  datatype Reply = Addresses(values: seq<string>) | NxDomain | Timeout | OtherError

  const DNSBL_LISTS: seq<string> := [
    "zen.spamhaus.org", "bl.spamcop.net", "dnsbl.sorbs.net", "b.barracudacentral.org", "cbl.abuseat.org",
    "ips.backscatterer.org", "truncate.gbudb.net", "ubl.unsubscore.com", "virus.rbl.msrbl.net",
    "spam.rbl.msrbl.net", "phishing.rbl.msrbl.net", "ricn.dnsbl.net.au", "dnsbl.kempt.net", "bl.mailspike.net",
    "z.mailspike.net", "bl.score.senderscore.com", "dnsbl.dronebl.org", "dnsbl.spfbl.net",
    "dnsbl.cyberlogic.net", "psbl.surriel.com", "bl.blocklist.de", "rbl.interserver.net", "bad.psky.me",
    "hostkarma.junkemailfilter.com", "bl.konstant.no", "dnsbl.anticaptcha.net", "all.s5h.net"
  ]

  const DOMAIN_DNSBL_LISTS: seq<string> := [
    "dbl.spamhaus.org", "multi.uribl.com", "multi.surbl.org", "black.uribl.com"
  ]

  const REFUSED_PREFIX: string := "127.255.255."

  function ListedCodes(dnsbl: string): set<string> {
    if dnsbl == "zen.spamhaus.org" then
      {"127.0.0.2", "127.0.0.3", "127.0.0.4", "127.0.0.5", "127.0.0.6", "127.0.0.7", "127.0.0.9",
       "127.0.0.10", "127.0.0.11"}
    else if dnsbl == "cbl.abuseat.org" then {"127.0.0.2", "127.0.0.4"}
    else {"127.0.0.2"}
  }

  /** A refusal anywhere in the answer wins over a listing anywhere in it. */
  function IpStatus(dnsbl: string, addresses: seq<string>): Status {
    if exists a | a in addresses :: StartsWith(a, REFUSED_PREFIX) then Blocked
    else if exists a | a in addresses :: a in ListedCodes(dnsbl) then Listed
    else Reputation
  }

  predicate DomainRefused(a: string) { StartsWith(a, REFUSED_PREFIX) || a == "127.0.0.1" }

  predicate DomainListed(a: string) {
    StartsWith(a, "127.0.1.") || a in {"127.0.0.2", "127.0.0.4", "127.0.0.8", "127.0.0.14"}
  }

  function DomainStatus(addresses: seq<string>): Status {
    if exists a | a in addresses :: DomainRefused(a) then Blocked
    else if exists a | a in addresses :: DomainListed(a) then Listed
    else Reputation
  }

  method IpDnsblStatus(dnsbl: string, addresses: seq<string>) returns (status: Status)
    ensures status == IpStatus(dnsbl, addresses)
  {
    for i := 0 to |addresses|
      invariant forall j :: 0 <= j < i ==> !StartsWith(addresses[j], REFUSED_PREFIX)
    {
      if StartsWith(addresses[i], REFUSED_PREFIX) { return Blocked; }
    }
    for i := 0 to |addresses|
      invariant forall j :: 0 <= j < i ==> addresses[j] !in ListedCodes(dnsbl)
    {
      if addresses[i] in ListedCodes(dnsbl) { return Listed; }
    }
    return Reputation;
  }

  method DomainDnsblStatus(addresses: seq<string>) returns (status: Status)
    ensures status == DomainStatus(addresses)
  {
    for i := 0 to |addresses|
      invariant forall j :: 0 <= j < i ==> !DomainRefused(addresses[j])
    {
      if DomainRefused(addresses[i]) { return Blocked; }
    }
    for i := 0 to |addresses|
      invariant forall j :: 0 <= j < i ==> !DomainListed(addresses[j])
    {
      if DomainListed(addresses[i]) { return Listed; }
    }
    return Reputation;
  }

  /** The order and repetition of the addresses in an answer do not matter. */
  lemma StatusBySet(dnsbl: string, some: seq<string>, others: seq<string>)
    requires forall a :: a in some <==> a in others
    ensures IpStatus(dnsbl, some) == IpStatus(dnsbl, others)
    ensures DomainStatus(some) == DomainStatus(others)
  {}

  /** A lookup that gets no addresses never lists. */
  function IpReplyStatus(dnsbl: string, reply: Reply): Status {
    match reply
    case Addresses(values) => IpStatus(dnsbl, values)
    case NxDomain => NotListed
    case Timeout => TimedOut
    case OtherError => Errored
  }

  function DomainReplyStatus(reply: Reply): Status {
    match reply
    case Addresses(values) => DomainStatus(values)
    case NxDomain => NotListed
    case Timeout => TimedOut
    case OtherError => Errored
  }

  function IpStatusOf(reply: string -> Reply): string -> Status { l => IpReplyStatus(l, reply(l)) }

  function AddressesOf(reply: Reply): seq<string> { if reply.Addresses? then reply.values else [] }

  // ----- Folding finished lookups -----

  type Summary = map<Status, nat>

  const EMPTY_SUMMARY: Summary :=
    map[Listed := 0, NotListed := 0, Reputation := 0, TimedOut := 0, Blocked := 0, Errored := 0]

  predicate Full(summary: Summary) { forall s: Status :: s in summary }

  /** The jobs among `done` that ended with this status. */
  function With<Job(==)>(done: set<Job>, statusOf: Job -> Status, status: Status): set<Job> {
    set j | j in done && statusOf(j) == status
  }

  /** The summary of a set of finished jobs: how many ended with each status. */
  predicate Summarises<Job(==)>(summary: Summary, done: set<Job>, statusOf: Job -> Status) {
    Full(summary) && forall s :: summary[s] == |With(done, statusOf, s)|
  }

  function Total(summary: Summary): nat
    requires Full(summary)
  {
    summary[Listed] + summary[NotListed] + summary[Reputation] + summary[TimedOut] + summary[Blocked] + summary[Errored]
  }

  function SetOf<T(==)>(s: seq<T>): set<T> { set x | x in s }

  predicate NoRepeats<T(==)>(s: seq<T>) { forall i, j :: 0 <= i < j < |s| ==> s[i] != s[j] }

  lemma OneMoreJob<Job>(done: set<Job>, statusOf: Job -> Status, j: Job, s: Status)
    requires j !in done
    ensures |With(done + {j}, statusOf, s)| == |With(done, statusOf, s)| + (if s == statusOf(j) then 1 else 0)
  {
    if s == statusOf(j) {
      assert With(done + {j}, statusOf, s) == With(done, statusOf, s) + {j};
    } else {
      assert With(done + {j}, statusOf, s) == With(done, statusOf, s);
    }
  }

  lemma CountOne<Job>(summary: Summary, done: set<Job>, statusOf: Job -> Status, j: Job)
    requires Summarises(summary, done, statusOf) && j !in done
    ensures Summarises(summary[statusOf(j) := summary[statusOf(j)] + 1], done + {j}, statusOf)
  {
    forall s { OneMoreJob(done, statusOf, j, s); }
  }

  lemma UncountOne<Job>(summary: Summary, done: set<Job>, statusOf: Job -> Status, j: Job)
    requires Summarises(summary, done, statusOf) && j in done
    ensures summary[statusOf(j)] > 0
    ensures Summarises(summary[statusOf(j) := summary[statusOf(j)] - 1], done - {j}, statusOf)
  {
    assert (done - {j}) + {j} == done;
    forall s { OneMoreJob(done - {j}, statusOf, j, s); }
  }

  /** The counts of a summary add up to the number of jobs. */
  lemma {:induction false} SummaryAddsUp<Job>(summary: Summary, done: set<Job>, statusOf: Job -> Status)
    requires Summarises(summary, done, statusOf)
    ensures Total(summary) == |done|
  {
    if done == {} {
      assert forall s :: With(done, statusOf, s) == {};
    } else {
      var j :| j in done;
      UncountOne(summary, done, statusOf, j);
      SummaryAddsUp(summary[statusOf(j) := summary[statusOf(j)] - 1], done - {j}, statusOf);
    }
  }

  lemma NothingCounted<Job>(statusOf: Job -> Status)
    ensures Summarises(EMPTY_SUMMARY, {}, statusOf)
  {
    forall s: Status ensures s in EMPTY_SUMMARY && EMPTY_SUMMARY[s] == 0 {
      match s
      case Listed => case NotListed => case Reputation => case TimedOut => case Blocked => case Errored =>
    }
    forall s ensures With({}, statusOf, s) == {} {}
  }

  lemma SummaryUnique<Job>(a: Summary, b: Summary, done: set<Job>, statusOf: Job -> Status)
    requires Summarises(a, done, statusOf) && Summarises(b, done, statusOf)
    ensures a == b
  {}

  /** A completion order: every job once, in any order. */
  predicate Completes<Job(==)>(order: seq<Job>, jobs: seq<Job>) {
    NoRepeats(order) && SetOf(order) == SetOf(jobs)
  }

  lemma TakeOneMore<Job>(order: seq<Job>, i: nat)
    requires i < |order|
    ensures SetOf(order[..i + 1]) == SetOf(order[..i]) + {order[i]}
    ensures NoRepeats(order) ==> order[i] !in SetOf(order[..i])
  {}

  datatype IpReport = IpReport(
    checked: nat,
    results: map<string, Status>,
    answers: map<string, seq<string>>,
    summary: Summary)

  function StatusesOf(lists: set<string>, reply: string -> Reply): map<string, Status> {
    map l | l in lists :: IpReplyStatus(l, reply(l))
  }

  /** The lists that answered with addresses, and those. */
  function AnswersOf(lists: set<string>, reply: string -> Reply): map<string, seq<string>> {
    map l | l in lists && AddressesOf(reply(l)) != [] :: AddressesOf(reply(l))
  }

  lemma OneMoreAnswer(done: set<string>, reply: string -> Reply, dnsbl: string)
    requires dnsbl !in done
    ensures StatusesOf(done + {dnsbl}, reply) == StatusesOf(done, reply)[dnsbl := IpReplyStatus(dnsbl, reply(dnsbl))]
    ensures AnswersOf(done + {dnsbl}, reply)
         == if AddressesOf(reply(dnsbl)) == [] then AnswersOf(done, reply)
            else AnswersOf(done, reply)[dnsbl := AddressesOf(reply(dnsbl))]
  {}

  method CollectAnswers(order: seq<string>, reply: string -> Reply)
      returns (results: map<string, Status>, answers: map<string, seq<string>>)
    requires NoRepeats(order)
    ensures results == StatusesOf(SetOf(order), reply) && answers == AnswersOf(SetOf(order), reply)
  {
    results, answers := map[], map[];
    for i := 0 to |order|
      invariant results == StatusesOf(SetOf(order[..i]), reply)
      invariant answers == AnswersOf(SetOf(order[..i]), reply)
    {
      var dnsbl := order[i];
      TakeOneMore(order, i);
      OneMoreAnswer(SetOf(order[..i]), reply, dnsbl);
      results := results[dnsbl := IpReplyStatus(dnsbl, reply(dnsbl))];
      var addresses := AddressesOf(reply(dnsbl));
      if addresses != [] {
        answers := answers[dnsbl := addresses];
      }
    }
    assert order[..|order|] == order;
  }

  /** Counting over the results, which a dictionary keeps in completion order. */
  method CountStatuses(order: seq<string>, statusOf: string -> Status, results: map<string, Status>)
      returns (summary: Summary)
    requires NoRepeats(order) && results == map d | d in SetOf(order) :: statusOf(d)
    ensures Summarises(summary, SetOf(order), statusOf)
  {
    summary := EMPTY_SUMMARY;
    NothingCounted(statusOf);
    assert SetOf(order[..0]) == {};
    for i := 0 to |order|
      invariant Summarises(summary, SetOf(order[..i]), statusOf)
    {
      TakeOneMore(order, i);
      CountOne(summary, SetOf(order[..i]), statusOf, order[i]);
      var status := results[order[i]];
      summary := summary[status := summary[status] + 1];
    }
    assert order[..|order|] == order;
  }

  /** The IP check: whatever the completion order, the same results, answers and summary; nothing without an address. */
  method CheckBlacklists(ip: string, lists: seq<string>, order: seq<string>, reply: string -> Reply)
      returns (r: IpReport)
    requires Completes(order, lists)
    ensures ip == "" ==> r == IpReport(0, map[], map[], EMPTY_SUMMARY)
    ensures ip != "" ==> r.results == StatusesOf(SetOf(lists), reply) && r.answers == AnswersOf(SetOf(lists), reply)
    ensures ip != "" ==> Summarises(r.summary, SetOf(lists), IpStatusOf(reply))
    ensures ip != "" ==> r.checked == |SetOf(lists)| == Total(r.summary)
  {
    if ip == "" {
      return IpReport(0, map[], map[], EMPTY_SUMMARY);
    }
    var results, answers := CollectAnswers(order, reply);
    var summary := CountStatuses(order, IpStatusOf(reply), results);
    assert results.Keys == SetOf(lists);
    SummaryAddsUp(summary, SetOf(lists), IpStatusOf(reply));
    r := IpReport(|results|, results, answers, summary);
  }

  // ----- Domains and links -----

  /** The front of s up to n; a negative n drops that many from the end instead. */
  function FirstN<T>(s: seq<T>, n: int): seq<T> {
    if n >= |s| then s else if n >= 0 then s[..n] else if |s| + n >= 0 then s[..|s| + n] else []
  }

  /** Each name once, in order of first appearance, without empty names. */
  function DistinctNames(domains: seq<string>): seq<string> {
    if domains == [] then []
    else
      var front := DistinctNames(domains[..|domains| - 1]);
      var last := domains[|domains| - 1];
      if last == "" || last in front then front else front + [last]
  }

  function Targets(domains: seq<string>, cap: int): seq<string> { FirstN(DistinctNames(domains), cap) }

  lemma {:induction false} DistinctNamesExactly(domains: seq<string>)
    ensures NoRepeats(DistinctNames(domains))
    ensures forall d :: d in DistinctNames(domains) <==> d in domains && d != ""
  {
    if domains != [] {
      var front, last := domains[..|domains| - 1], domains[|domains| - 1];
      DistinctNamesExactly(front);
      assert domains == front + [last];
    }
  }

  /** The sender's own domain always comes first, so no cap of one or more can push it out. */
  lemma {:induction false} SenderIsFirst(sender: string, links: seq<string>)
    requires sender != ""
    ensures DistinctNames([sender] + links) != [] && DistinctNames([sender] + links)[0] == sender
  {
    var all := [sender] + links;
    if links == [] {
      assert all[..0] == [];
      assert DistinctNames(all[..0]) == [];
    } else {
      assert all[..|all| - 1] == [sender] + links[..|links| - 1];
      SenderIsFirst(sender, links[..|links| - 1]);
    }
  }

  lemma {:induction false} DistinctNamesGrow(domains: seq<string>, k: nat)
    requires k <= |domains|
    ensures DistinctNames(domains[..k]) <= DistinctNames(domains)
  {
    if k < |domains| {
      DistinctNamesGrow(domains[..|domains| - 1], k);
      assert domains[..|domains| - 1][..k] == domains[..k];
    } else {
      assert domains[..k] == domains;
    }
  }

  lemma DistinctNamesCount(domains: seq<string>)
    ensures |DistinctNames(domains)| == |set d | d in domains && d != ""|
  {
    var names := DistinctNames(domains);
    DistinctNamesExactly(domains);
    NoRepeatsCount(names);
    assert SetOf(names) == set d | d in domains && d != "";
  }

  lemma {:induction false} NoRepeatsCount(s: seq<string>)
    requires NoRepeats(s)
    ensures |SetOf(s)| == |s|
  {
    if s != [] {
      var front, last := s[..|s| - 1], s[|s| - 1];
      NoRepeatsCount(front);
      assert SetOf(s) == SetOf(front) + {last};
    }
  }

  /** As many different names as the cap allows, and a later name never pushes out an earlier one. */
  lemma TargetsExactly(domains: seq<string>, cap: nat, k: nat)
    requires k <= |domains|
    ensures NoRepeats(Targets(domains, cap))
    ensures forall d :: d in Targets(domains, cap) ==> d in domains && d != ""
    ensures |Targets(domains, cap)| == Min(cap, |set d | d in domains && d != ""|)
    ensures Targets(domains[..k], cap) <= Targets(domains, cap)
  {
    DistinctNamesExactly(domains);
    DistinctNamesCount(domains);
    DistinctNamesGrow(domains, k);
    var names := DistinctNames(domains);
    forall d | d in Targets(domains, cap) ensures d in names {
      var i :| 0 <= i < |Targets(domains, cap)| && Targets(domains, cap)[i] == d;
      assert names[i] == d;
    }
  }

  lemma SenderIsChecked(sender: string, links: seq<string>, cap: int)
    requires sender != "" && cap > 0
    ensures sender in Targets([sender] + links, cap)
  {
    SenderIsFirst(sender, links);
    assert Targets([sender] + links, cap)[0] == sender;
  }

  type Job = (string, string)

  /** Every target against every list. */
  function Jobs(targets: seq<string>, lists: seq<string>): set<Job> {
    set d, l | d in targets && l in lists :: (d, l)
  }

  function ListedJobs(jobs: set<Job>, statusOf: Job -> Status): set<Job> { With(jobs, statusOf, Listed) }

  /** Enter one status under its domain, which may not have an entry yet. */
  function Record(results: map<string, map<string, Status>>, j: Job, status: Status): map<string, map<string, Status>> {
    results[j.0 := (if j.0 in results then results[j.0] else map[])[j.1 := status]]
  }

  /** The nested results hold exactly the finished jobs with their statuses. */
  ghost predicate Holds(results: map<string, map<string, Status>>, done: set<Job>, statusOf: Job -> Status) {
    && (forall d, l :: d in results && l in results[d] <==> (d, l) in done)
    && (forall d :: d in results ==> results[d] != map[])
    && (forall d, l :: (d, l) in done && d in results && l in results[d] ==> results[d][l] == statusOf((d, l)))
  }

  lemma RecordKeeps(results: map<string, map<string, Status>>, done: set<Job>, statusOf: Job -> Status, j: Job)
    requires Holds(results, done, statusOf)
    ensures Holds(Record(results, j, statusOf(j)), done + {j}, statusOf)
  {
    var t := Record(results, j, statusOf(j));
    assert j.1 in t[j.0];
  }

  lemma ResultsUnique(a: map<string, map<string, Status>>, b: map<string, map<string, Status>>, done: set<Job>,
                      statusOf: Job -> Status)
    requires Holds(a, done, statusOf) && Holds(b, done, statusOf)
    ensures a == b
  {
    forall d ensures d in a <==> d in b {
      if d in a { var l :| l in a[d]; assert (d, l) in done; }
      if d in b { var l :| l in b[d]; assert (d, l) in done; }
    }
    forall d | d in a ensures a[d] == b[d] {
      forall l ensures l in a[d] <==> l in b[d] {
        assert l in a[d] <==> (d, l) in done;
        assert l in b[d] <==> (d, l) in done;
      }
    }
  }

  datatype DomainReport = DomainReport(
    checked: nat,
    results: map<string, map<string, Status>>,
    listed: seq<Job>,
    summary: Summary)

  /** The outcome a report must show, whatever the completion order. */
  ghost predicate Reports(r: DomainReport, jobs: set<Job>, statusOf: Job -> Status) {
    && Holds(r.results, jobs, statusOf)
    && Summarises(r.summary, jobs, statusOf) && r.checked == |jobs| == Total(r.summary)
    && NoRepeats(r.listed) && SetOf(r.listed) == ListedJobs(jobs, statusOf)
  }

  lemma {:induction false} SizeWithoutRepeats<T>(s: seq<T>)
    requires NoRepeats(s)
    ensures |SetOf(s)| == |s|
  {
    if s != [] {
      TakeOneMore(s, |s| - 1);
      assert s[..|s|] == s;
      SizeWithoutRepeats(s[..|s| - 1]);
    }
  }

  lemma ListOneMore(listed: seq<Job>, done: set<Job>, statusOf: Job -> Status, j: Job)
    requires NoRepeats(listed) && SetOf(listed) == ListedJobs(done, statusOf) && j !in done
    ensures var more := if statusOf(j).Listed? then listed + [j] else listed;
            NoRepeats(more) && SetOf(more) == ListedJobs(done + {j}, statusOf)
  {
    if statusOf(j).Listed? {
      assert j !in SetOf(listed);
      assert SetOf(listed + [j]) == SetOf(listed) + {j};
      assert ListedJobs(done + {j}, statusOf) == ListedJobs(done, statusOf) + {j};
    } else {
      assert ListedJobs(done + {j}, statusOf) == ListedJobs(done, statusOf);
    }
  }

  method CheckDomainBlacklists(domains: seq<string>, cap: int, lists: seq<string>, order: seq<Job>,
                               statusOf: Job -> Status) returns (r: DomainReport)
    requires NoRepeats(order) && SetOf(order) == Jobs(Targets(domains, cap), lists)
    ensures Reports(r, Jobs(Targets(domains, cap), lists), statusOf)
  {
    var results: map<string, map<string, Status>> := map[];
    var listed: seq<Job> := [];
    var summary := EMPTY_SUMMARY;
    NothingCounted(statusOf);
    assert SetOf(order[..0]) == {};
    for i := 0 to |order|
      invariant Holds(results, SetOf(order[..i]), statusOf)
      invariant Summarises(summary, SetOf(order[..i]), statusOf)
      invariant NoRepeats(listed) && SetOf(listed) == ListedJobs(SetOf(order[..i]), statusOf)
    {
      var j := order[i];
      var status := statusOf(j);
      TakeOneMore(order, i);
      RecordKeeps(results, SetOf(order[..i]), statusOf, j);
      CountOne(summary, SetOf(order[..i]), statusOf, j);
      ListOneMore(listed, SetOf(order[..i]), statusOf, j);
      results := Record(results, j, status);
      summary := summary[status := summary[status] + 1];
      if status.Listed? {
        listed := listed + [j];
      }
    }
    assert order[..|order|] == order;
    SizeWithoutRepeats(order);
    SummaryAddsUp(summary, SetOf(order), statusOf);
    r := DomainReport(|order|, results, listed, summary);
  }

  /** Two completion orders of the same lookups: the same results and summary, the same listings, as many as the summary
      counts. */
  lemma OrderDoesNotMatter(a: DomainReport, b: DomainReport, jobs: set<Job>, statusOf: Job -> Status)
    requires Reports(a, jobs, statusOf) && Reports(b, jobs, statusOf)
    ensures a.checked == b.checked && a.results == b.results && a.summary == b.summary
    ensures multiset(a.listed) == multiset(b.listed) && |a.listed| == a.summary[Listed]
  {
    ResultsUnique(a.results, b.results, jobs, statusOf);
    SummaryUnique(a.summary, b.summary, jobs, statusOf);
    SizeWithoutRepeats(a.listed);
    OnceEach(a.listed);
    OnceEach(b.listed);
  }

  lemma {:induction false} OnceEach<T>(s: seq<T>)
    requires NoRepeats(s)
    ensures multiset(s) == multiset(SetOf(s))
  {
    if s != [] {
      var front, last := s[..|s| - 1], s[|s| - 1];
      assert s == front + [last];
      TakeOneMore(s, |s| - 1);
      assert s[..|s|] == s;
      OnceEach(front);
      assert multiset(SetOf(s)) == multiset(SetOf(front)) + multiset{last};
    }
  }
}

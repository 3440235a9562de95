/** What an answer of a list means, said of the addresses themselves. */
module ListCodes {
  import opened Prelude
  import opened Strings
  import opened Blacklists

  /** A number below a hundred, in decimals. */
  function Decimal(n: nat): string
    requires n < 100
  {
    if n < 10 then ['0' + n as char] else ['0' + (n / 10) as char, '0' + (n % 10) as char]
  }

  function Loopback(n: nat): string
    requires n < 100
  {
    "127.0.0." + Decimal(n)
  }

  lemma SameLoopback(m: nat, n: nat)
    requires m < 100 && n < 100
    ensures Loopback(m) == Loopback(n) <==> m == n
  {
    if Loopback(m) == Loopback(n) {
      assert Loopback(m)[8..] == Decimal(m) && Loopback(n)[8..] == Decimal(n);
      assert Decimal(m)[0] == Decimal(n)[0];
    }
  }

  /** The codes by which a list says that it lists the address. */
  predicate Says(dnsbl: string, n: nat) {
    if dnsbl == "zen.spamhaus.org" then 2 <= n <= 11 && n != 8
    else if dnsbl == "cbl.abuseat.org" then n == 2 || n == 4
    else n == 2
  }

  function Codes(dnsbl: string): set<string> { set n: nat | n < 100 && Says(dnsbl, n) :: Loopback(n) }

  lemma CodesAre(dnsbl: string)
    ensures ListedCodes(dnsbl) == Codes(dnsbl)
  {
    assert Loopback(2) == "127.0.0.2" && Loopback(3) == "127.0.0.3" && Loopback(4) == "127.0.0.4";
    assert Loopback(5) == "127.0.0.5" && Loopback(6) == "127.0.0.6" && Loopback(7) == "127.0.0.7";
    assert Loopback(9) == "127.0.0.9" && Loopback(10) == "127.0.0.10" && Loopback(11) == "127.0.0.11";
    assert Says(dnsbl, 2);
    forall a | a in ListedCodes(dnsbl) ensures a in Codes(dnsbl) {}
    forall n: nat | n < 100 && Says(dnsbl, n) ensures Loopback(n) in ListedCodes(dnsbl) {
      if dnsbl == "zen.spamhaus.org" { assert n in {2, 3, 4, 5, 6, 7, 9, 10, 11}; }
    }
  }

  /** One address of the loopback net: listed exactly when its code is one of the list's. */
  lemma CodeDecides(dnsbl: string, n: nat)
    requires n < 100
    ensures IpStatus(dnsbl, [Loopback(n)]) == if Says(dnsbl, n) then Listed else Reputation
  {
    CodesAre(dnsbl);
    forall m: nat | m < 100 ensures Loopback(m) == Loopback(n) <==> m == n { SameLoopback(m, n); }
    assert Loopback(n) in [Loopback(n)];
    assert Loopback(n)[4] == '0' && REFUSED_PREFIX[4] == '2';
  }

  /** A refusal to answer is no listing, whatever else the answer holds. */
  lemma RefusalDecides(dnsbl: string, x: string, others: seq<string>)
    ensures IpStatus(dnsbl, ["127.255.255." + x] + others) == Blocked
    ensures DomainStatus(["127.255.255." + x] + others) == Blocked
    ensures DomainStatus(["127.0.0.1"] + others) == Blocked
  {
    assert "127.255.255." + x in ["127.255.255." + x] + others;
    assert "127.0.0.1" in ["127.0.0.1"] + others;
  }

  lemma DomainCodeDecides(n: nat, x: string)
    requires n < 100
    ensures DomainStatus([Loopback(n)])
         == if n == 1 then Blocked else if n in {2, 4, 8, 14} then Listed else Reputation
    ensures DomainStatus(["127.0.1." + x]) == Listed
  {
    assert Loopback(1) == "127.0.0.1" && Loopback(2) == "127.0.0.2" && Loopback(4) == "127.0.0.4";
    assert Loopback(8) == "127.0.0.8" && Loopback(14) == "127.0.0.14";
    SameLoopback(n, 1);
    SameLoopback(n, 2);
    SameLoopback(n, 4);
    SameLoopback(n, 8);
    SameLoopback(n, 14);
    var a := Loopback(n);
    assert a in [a] && a[4] == '0' && REFUSED_PREFIX[4] == '2' && a[6] == '0' && "127.0.1."[6] == '1';
    var b := "127.0.1." + x;
    assert b in [b] && b[4] == '0' && b[6] == '1' && "127.0.0.1"[6] == '0';
  }

  /** No answer lists nothing, and says why there is none. */
  lemma NoAnswerListsNothing(dnsbl: string)
    ensures IpReplyStatus(dnsbl, NxDomain) == NotListed && DomainReplyStatus(NxDomain) == NotListed
    ensures IpReplyStatus(dnsbl, Timeout) == TimedOut && DomainReplyStatus(Timeout) == TimedOut
    ensures IpReplyStatus(dnsbl, OtherError) == Errored && DomainReplyStatus(OtherError) == Errored
    ensures IpReplyStatus(dnsbl, Addresses([])) == Reputation && DomainReplyStatus(Addresses([])) == Reputation
  {}

  /** The answers kept are those of the lists that gave addresses, as they gave them. */
  lemma AnswersAre(lists: set<string>, reply: string -> Reply, l: string)
    ensures l in AnswersOf(lists, reply) <==> l in lists && reply(l).Addresses? && reply(l).values != []
    ensures l in AnswersOf(lists, reply) ==> AnswersOf(lists, reply)[l] == reply(l).values
    ensures l in StatusesOf(lists, reply) <==> l in lists
  {}

  /** A cap keeps the first so many; a negative one drops so many from the end. */
  lemma CapKeepsFirst<T>(s: seq<T>, n: int)
    ensures FirstN(s, n) <= s
    ensures |FirstN(s, n)| == if n >= 0 then Min(n, |s|) else Max(0, |s| + n)
  {}
}

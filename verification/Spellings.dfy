/** Which recipients ingest keeps, said of the recipients as the sender spells them. */
module Spellings {
  import opened Prelude
  import opened Strings
  import opened Recipients
  import opened Store
  import opened Ingest
  import opened DmarcTags

  predicate Spaces(s: string) { forall i :: 0 <= i < |s| ==> IsSpace(s[i]) }

  // ----- Trimming -----

  lemma {:induction false} StripLeftDrops(left: string, s: string)
    requires Spaces(left) && (s != "" ==> !IsSpace(s[0]))
    ensures StripLeft(left + s, IsSpace) == s
  {
    if left == "" {
      assert left + s == s;
    } else {
      assert (left + s)[1..] == left[1..] + s;
      StripLeftDrops(left[1..], s);
    }
  }

  lemma {:induction false} StripRightDrops(s: string, right: string)
    requires Spaces(right) && (s != "" ==> !IsSpace(s[|s| - 1]))
    ensures StripRight(s + right, IsSpace) == s
  {
    if right == "" {
      assert s + right == s;
    } else {
      var all := s + right;
      assert all[..|all| - 1] == s + right[..|right| - 1] && all[|all| - 1] == right[|right| - 1];
      StripRightDrops(s, right[..|right| - 1]);
    }
  }

  lemma Trims(left: string, s: string, right: string)
    requires Spaces(left) && Spaces(right) && s != "" && Stripped(s, IsSpace)
    ensures Strip(left + s + right, IsSpace) == s
  {
    assert left + s + right == left + (s + right);
    StripLeftDrops(left, s + right);
    StripRightDrops(s, right);
  }

  // ----- Spellings -----

  /** r is the address local@domain in some mix of cases, with white space around it or not. */
  ghost predicate Spells(r: string, local: string, domain: string) {
    exists left, s, right :: r == left + s + right && Spaces(left) && Spaces(right) && s != "" && Stripped(s, IsSpace)
                             && Lower(s) == Lower(local + "@" + domain)
  }

  lemma SpelledForm(r: string, local: string, domain: string)
    requires Spells(r, local, domain)
    ensures Normal(r) == Lower(local) + "@" + Lower(domain) == Lower(local + "@" + domain)
  {
    var left, s, right :| r == left + s + right && Spaces(left) && Spaces(right) && s != "" && Stripped(s, IsSpace)
                          && Lower(s) == Lower(local + "@" + domain);
    Trims(left, s, right);
    LowerSplits(local + "@", domain);
    LowerSplits(local, "@");
    assert Lower("@") == "@";
  }

  lemma {:induction false} LowerKeepsAt(s: string)
    ensures '@' in Lower(s) <==> '@' in s
  {
    if s != "" {
      LowerKeepsAt(s[1..]);
      LowerCharIs(s[0]);
      assert '@' in s <==> s[0] == '@' || '@' in s[1..];
      assert Lower(s) == [LowerChar(s[0])] + Lower(s[1..]);
    }
  }

  lemma EndsInDomain(n: string, d: string)
    requires '@' !in d
    ensures EndsWith(n, "@" + d) <==> '@' in n && AfterLast(n, '@') == d
  {
    if '@' in n {
      var p := BeforeLast(n);
      EndsWithTail(p, "@" + AfterLast(n, '@'));
      assert n == p + ("@" + AfterLast(n, '@'));
    }
    if EndsWith(n, "@" + d) {
      var p := n[..|n| - |d| - 1];
      assert n == p + "@" + d;
      AfterLastIs(p, d);
      assert n[|p|] == '@';
    }
  }

  lemma {:induction false} BeforeLast(n: string) returns (p: string)
    requires '@' in n
    ensures n == p + "@" + AfterLast(n, '@')
    decreases |n|
  {
    var i := FirstAt(n, '@');
    var rest := AfterFirst(n, '@');
    if '@' in rest {
      var q := BeforeLast(rest);
      p := n[..i + 1] + q;
      assert n == n[..i + 1] + rest;
    } else {
      p := n[..i];
      assert n == n[..i] + "@" + rest;
    }
  }

  /** The room after one mail to one recipient. */
  function Handled(site: Site, m: Mailroom, r: string, trouble: Trouble): Mailroom {
    Deliver(site, m, Addressed(site, [r]), [trouble], 1)
  }

  /** A recipient of this site, however it is spelled, gets one event under its lower-case address, with the origin of
      that address and nothing done yet, and one task. */
  lemma OwnRecipientIsKept(site: Site, m: Mailroom, r: string, local: string)
    requires Spells(r, local, site.domain) && m.reply.Accepted?
    ensures var to := Lower(local + "@" + site.domain);
            var origin := if to in site.origins then site.origins[to] else Origin(None, None, None);
            var event := Event(to, origin, None, None, None, NoError);
            Handled(site, m, r, NoTrouble)
            == Mailroom(m.db.(events := m.db.events[m.db.nextId := event], nextId := m.db.nextId + 1),
                        m.queue + multiset{m.db.nextId}, Accepted)
  {
    OwnForm(site, r, local);
    OneRecipient(site, m, r, NoTrouble);
  }

  lemma OwnForm(site: Site, r: string, local: string)
    requires Spells(r, local, site.domain)
    ensures StoredForm(site, r) == Some(Lower(local + "@" + site.domain))
  {
    SpelledForm(r, local, site.domain);
    EndsInTail(Normal(r), Lower(local), Lower(site.domain));
    FormIs(site, r);
  }

  lemma EndsInTail(n: string, l: string, d: string)
    requires n == l + "@" + d
    ensures EndsWith(n, "@" + d)
  {
    EndsWithTail(l, "@" + d);
    assert n == l + ("@" + d);
  }

  lemma FormIs(site: Site, r: string)
    requires EndsWith(Normal(r), "@" + Lower(site.domain))
    ensures StoredForm(site, r) == Some(Normal(r))
  {}

  lemma EndsWithTail(s: string, t: string)
    ensures EndsWith(s + t, t)
  {}

  lemma OneRecipient(site: Site, m: Mailroom, r: string, trouble: Trouble)
    requires m.reply.Accepted?
    ensures Handled(site, m, r, trouble) == Receive(site, m, StoredForm(site, r), trouble)
  {
    var to := Addressed(site, [r]);
    assert Deliver(site, m, to, [trouble], 0) == m;
  }

  /** A recipient of another site, or without an @, leaves no trace. */
  lemma OtherRecipientIsSkipped(site: Site, m: Mailroom, r: string, local: string, other: string, trouble: Trouble)
    requires '@' !in site.domain && '@' !in other && m.reply.Accepted?
    requires '@' !in r || (Spells(r, local, other) && Lower(other) != Lower(site.domain))
    ensures Handled(site, m, r, trouble) == m
  {
    LowerKeepsAt(site.domain);
    LowerKeepsAt(other);
    if '@' !in r {
      NormalKeepsAt(r);
    } else {
      SpelledForm(r, local, other);
      AfterLastIs(Lower(local), Lower(other));
    }
    EndsInDomain(Normal(r), Lower(site.domain));
    OneRecipient(site, m, r, trouble);
  }

  lemma NormalKeepsAt(r: string)
    requires '@' !in r
    ensures '@' !in Normal(r)
  {
    StripLeftEnd(r, IsSpace);
    StripRightEnd(StripLeft(r, IsSpace), IsSpace);
    LowerKeepsAt(Strip(r, IsSpace));
  }

  // ----- Whole envelopes -----

  /** What follows the last @ of the trimmed recipient is the site's domain, in any case. */
  predicate IsOwn(site: Site, r: string) {
    var s := Strip(r, IsSpace); '@' in s && Lower(AfterLast(s, '@')) == Lower(site.domain)
  }

  /** The addresses of this site among the first n recipients, trimmed and in lower case. */
  function OwnAddresses(site: Site, recipients: seq<string>, n: nat): seq<string>
    requires n <= |recipients|
  {
    if n == 0 then []
    else
      OwnAddresses(site, recipients, n - 1)
      + (if IsOwn(site, recipients[n - 1]) then [Lower(Strip(recipients[n - 1], IsSpace))] else [])
  }

  lemma {:induction false} LowerAfterLast(s: string)
    requires '@' in s
    ensures '@' in Lower(s) && AfterLast(Lower(s), '@') == Lower(AfterLast(s, '@'))
  {
    var p := BeforeLast(s);
    var d := AfterLast(s, '@');
    NoAtAfterLast(s);
    LowerKeepsAt(d);
    LowerSplits(p + "@", d);
    LowerSplits(p, "@");
    assert Lower("@") == "@";
    AfterLastIs(Lower(p), Lower(d));
    LowerKeepsAt(s);
  }

  lemma {:induction false} NoAtAfterLast(s: string)
    ensures '@' !in AfterLast(s, '@')
    decreases |s|
  {
    if '@' in s { NoAtAfterLast(AfterFirst(s, '@')); }
  }

  lemma OwnIsKept(site: Site, r: string)
    requires '@' !in site.domain
    ensures StoredForm(site, r) == if IsOwn(site, r) then Some(Lower(Strip(r, IsSpace))) else None
  {
    var s := Strip(r, IsSpace);
    LowerKeepsAt(site.domain);
    EndsInDomain(Lower(s), Lower(site.domain));
    if '@' in s { LowerAfterLast(s); } else { LowerKeepsAt(s); }
  }

  lemma {:induction false} KeptAreOwn(site: Site, recipients: seq<string>, n: nat)
    requires '@' !in site.domain && n <= |recipients|
    ensures Kept(Addressed(site, recipients), n) == OwnAddresses(site, recipients, n)
  {
    if n > 0 {
      KeptAreOwn(site, recipients, n - 1);
      OwnIsKept(site, recipients[n - 1]);
      assert Addressed(site, recipients)[n - 1] == StoredForm(site, recipients[n - 1]);
    }
  }

  predicate NoneBreaks(site: Site, recipients: seq<string>, troubles: seq<Trouble>)
    requires |troubles| == |recipients|
  {
    forall k :: 0 <= k < |recipients| && IsOwn(site, recipients[k]) ==> troubles[k].NoTrouble?
  }

  /** The answer to a mail is 250 exactly when none of the site's own recipients broke; then each of these, and nobody
      else, has one new unclaimed event, in order, queued exactly once more. */
  lemma EnvelopeIsHandled(site: Site, m: Mailroom, recipients: seq<string>, troubles: seq<Trouble>)
    requires '@' !in site.domain && |troubles| == |recipients| && m.reply.Accepted? && Fresh(m.db)
    ensures var r := Deliver(site, m, Addressed(site, recipients), troubles, |recipients|);
            var own := OwnAddresses(site, recipients, |recipients|);
            && (r.reply.Accepted? <==> NoneBreaks(site, recipients, troubles))
            && (NoneBreaks(site, recipients, troubles) ==>
                  && Gains(site, m.db, r.db, own)
                  && r.queue == m.queue + IdsFrom(m.db.nextId, |own|))
  {
    var to := Addressed(site, recipients);
    forall k | 0 <= k < |recipients| ensures to[k].Some? <==> IsOwn(site, recipients[k]) {
      OwnIsKept(site, recipients[k]);
      assert to[k] == StoredForm(site, recipients[k]);
    }
    AcceptedExactly(site, m, to, troubles, |recipients|);
    if NoneBreaks(site, recipients, troubles) {
      AcceptedStoresEach(site, m, to, troubles, |recipients|);
      KeptAreOwn(site, recipients, |recipients|);
    }
  }
}

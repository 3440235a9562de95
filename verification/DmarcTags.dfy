/** The verdict on a record as it is written: what its tags say about alignment and policy. */
module DmarcTags {
  import opened Prelude
  import opened Strings
  import opened Dmarc

  type Tags = seq<(string, string)>

  predicate Written(tags: Tags) { tags != [] && forall k :: 0 <= k < |tags| ==> Plain(tags[k]) }

  /** The mode a record asks for: strict when the last value of the tag is s in either case, relaxed otherwise, also
      when the tag is missing or empty. */
  predicate SaysStrict(tags: Tags, name: string) { LastValue(tags, name) in {Some("s"), Some("S")} }

  lemma {:induction false} LowerIsOne(x: string, ch: char)
    requires LowerChar(ch) == ch
    ensures Lower(x) == [ch] <==> |x| == 1 && LowerChar(x[0]) == ch
  {
    LowerAt(x);
    if |x| == 1 { assert Lower(x) == [LowerChar(x[0])]; }
  }

  lemma ModeIsWritten(tags: Tags, domain: string, name: string)
    requires Written(tags)
    ensures Strict(Record(Render(tags), domain), name) <==> SaysStrict(tags, name)
  {
    TagRoundTrip(tags, domain, name);
    var value := LastValue(tags, name);
    LowerIsOne("r", 's');
    if value.Some? { LowerIsOne(value.value, 's'); }
    assert value.Some? && |value.value| == 1 ==> value.value == [value.value[0]];
  }

  /** Under the written mode: equal bare names, or the same organisation. */
  ghost predicate Aligns(tags: Tags, name: string, id: string, domain: string) {
    && id != "" && domain != ""
    && (if SaysStrict(tags, name) then Bare(id) == Bare(domain) else SameOrganization(id, domain))
  }

  lemma SpfAlignsAsWritten(tags: Tags, recordDomain: string, domain: string, spf: SpfView)
    requires Written(tags)
    ensures SpfAligned(domain, Record(Render(tags), recordDomain), spf) <==>
              && spf.result == Some("pass")
              && Aligns(tags, "aspf", OrElse(SenderDomain(spf.checkedSender), domain), domain)
  {
    ModeIsWritten(tags, recordDomain, "aspf");
    SpfAlignedExactly(domain, Record(Render(tags), recordDomain), spf);
  }

  lemma DkimAlignsAsWritten(tags: Tags, recordDomain: string, domain: string, dkim: DkimView)
    requires Written(tags)
    ensures DkimAligned(domain, Record(Render(tags), recordDomain), dkim) <==>
              && dkim.verified == Some(true) && dkim.signingDomain.Some?
              && Aligns(tags, "adkim", dkim.signingDomain.value, domain)
  {
    ModeIsWritten(tags, recordDomain, "adkim");
    DkimAlignedExactly(domain, Record(Render(tags), recordDomain), dkim);
  }

  /** The verdict on a written record: pass exactly when SPF passed and its domain aligns as aspf says, or DKIM verified
      and its domain aligns as adkim says; with neither, fail when one of them gave a result at all. */
  lemma VerdictAsWritten(tags: Tags, recordDomain: string, domain: string, spf: SpfView, dkim: DkimView)
    requires Written(tags)
    ensures var passes :=
              || (spf.result == Some("pass")
                  && Aligns(tags, "aspf", OrElse(SenderDomain(spf.checkedSender), domain), domain))
              || (dkim.verified == Some(true) && dkim.signingDomain.Some?
                  && Aligns(tags, "adkim", dkim.signingDomain.value, domain));
            DmarcVerdict(domain, Record(Render(tags), recordDomain), spf, dkim)
            == if passes then Pass else if spf.result.Some? || dkim.verified.Some? then Fail else Undecided
  {
    SpfAlignsAsWritten(tags, recordDomain, domain, spf);
    DkimAlignsAsWritten(tags, recordDomain, domain, dkim);
  }

  /** No record means no verdict of the mechanisms: missing, or unknown when a lookup failed. */
  lemma VerdictWithoutRecord(domain: string, spf: SpfView, dkim: DkimView)
    ensures DmarcVerdict(domain, NoPolicy, spf, dkim) == NoneFound
    ensures DmarcVerdict(domain, Unknown, spf, dkim) == Undecided
  {}

  /** One part of a record: its name is read trimmed and in any case, its value trimmed and as it is. */
  lemma OnePartReads(n: string, v: string, name: string)
    requires '=' !in n
    ensures Tag([n + "=" + v], name) == if Lower(Strip(n, IsSpace)) == name then Some(Strip(v, IsSpace)) else None
    ensures '=' !in n ==> Tag([n], name) == None
  {
    PartReads(n, v);
    var parts := [n + "=" + v];
    assert parts[..0] == [] && Tag([], name) == None;
    assert [n][..0] == [];
  }

  // ----- Whose domain the sender address names -----

  lemma {:induction false} AfterLastIs(p: string, d: string)
    requires '@' !in d
    ensures AfterLast(p + "@" + d, '@') == d
    decreases |p|
  {
    var s := p + "@" + d;
    if '@' in p {
      AfterFirstOf(p, "@" + d);
      assert p + ("@" + d) == s;
      AfterLastIs(AfterFirst(p, '@'), d);
      assert AfterFirst(s, '@') == AfterFirst(p, '@') + "@" + d;
    } else {
      FirstIs(p, d);
    }
  }

  lemma {:induction false} AfterFirstOf(p: string, rest: string)
    requires '@' in p
    ensures '@' in p + rest && AfterFirst(p + rest, '@') == AfterFirst(p, '@') + rest
  {
    if p[0] == '@' {
      assert (p + rest)[1..] == p[1..] + rest;
    } else {
      AfterFirstOf(p[1..], rest);
      assert (p + rest)[1..] == p[1..] + rest;
    }
  }

  lemma {:induction false} FirstIs(p: string, d: string)
    requires '@' !in p
    ensures '@' in p + "@" + d && AfterFirst(p + "@" + d, '@') == d
  {
    if p == "" {
      assert ("" + "@" + d)[1..] == d;
    } else {
      FirstIs(p[1..], d);
      assert (p + "@" + d)[1..] == p[1..] + "@" + d;
    }
  }

  /** The sender's domain is what follows its last @, trimmed and in lower case; an address without one has none. */
  lemma SenderDomainIs(p: string, d: string)
    requires '@' !in d
    ensures SenderDomain(Some(p + "@" + d)) == Some(Lower(Strip(d, IsSpace)))
    ensures SenderDomain(None) == None && SenderDomain(Some(d)) == None
  {
    AfterLastIs(p, d);
    assert (p + "@" + d)[|p|] == '@';
  }

  predicate IsVersioned(text: string) { StartsWith(Lower(text), "v=dmarc1") }

  /** The k-th text is the first that begins with the version. */
  predicate FirstVersioned(texts: seq<string>, k: nat) {
    k < |texts| && IsVersioned(texts[k]) && forall j :: 0 <= j < k ==> !IsVersioned(texts[j])
  }

  lemma {:induction false} FirstDmarcIs(texts: seq<string>, k: nat)
    requires FirstVersioned(texts, k)
    ensures FirstDmarc(texts) == Some(texts[k])
  {
    if k > 0 {
      assert !IsVersioned(texts[0]);
      assert forall j :: 0 <= j < k - 1 ==> texts[1..][j] == texts[j + 1];
      FirstDmarcIs(texts[1..], k - 1);
    }
  }

  lemma {:induction false} FirstDmarcFinds(texts: seq<string>) returns (k: nat)
    requires FirstDmarc(texts).Some?
    ensures FirstVersioned(texts, k)
  {
    if IsVersioned(texts[0]) {
      k := 0;
    } else {
      k := FirstDmarcFinds(texts[1..]);
      assert forall j :: 0 < j < k + 1 ==> texts[j] == texts[1..][j - 1];
      k := k + 1;
    }
  }

  /** The record among the answers to a lookup: the first that begins with the version, in any case. */
  lemma FirstDmarcExactly(texts: seq<string>, r: string)
    ensures FirstDmarc(texts) == Some(r) <==> exists k: nat :: FirstVersioned(texts, k) && texts[k] == r
  {
    if FirstDmarc(texts).Some? {
      var k := FirstDmarcFinds(texts);
      FirstDmarcIs(texts, k);
    }
    forall k: nat | FirstVersioned(texts, k) ensures FirstDmarc(texts) == Some(texts[k]) { FirstDmarcIs(texts, k); }
  }
}

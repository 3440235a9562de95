/** DMARC: discovery of the policy record up the domain tree, identifier alignment, and the verdict. */
module Dmarc {
  import opened Prelude
  import opened Strings

  // ----- Organisational domains and alignment (RFC 7489, section 3.1) -----

  function DotCount(s: string): nat {
    if s == "" then 0 else (if s[0] == '.' then 1 else 0) + DotCount(s[1..])
  }

  /** The last two labels of a name that has two or more. */
  function LastTwoLabels(s: string): string {
    if DotCount(s) <= 1 then s else LastTwoLabels(s[1..])
  }

  /** The name under which alignment compares. */
  function Bare(domain: string): string { Lower(Strip(domain, IsDot)) }

  /** The last two labels, which stand in for the Public Suffix List. A name of one label is returned as it came, in
      lower case but with its outer dots. */
  function OrganizationalDomain(domain: string): string {
    var name := Lower(Strip(domain, IsDot));
    if DotCount(name) >= 1 then LastTwoLabels(name) else Lower(domain)
  }

  lemma {:induction false} LastTwoIsSuffix(s: string)
    ensures var r := LastTwoLabels(s);
            |r| <= |s| && r == s[|s| - |r|..] && DotCount(r) == Min(1, DotCount(s)) && LastTwoLabels(r) == r
  {
    if DotCount(s) > 1 { LastTwoIsSuffix(s[1..]); }
  }

  lemma StripOneDot(s: string)
    requires |s| >= 2 && s[0] == '.' && DotCount(s) == 1
    ensures DotCount(Strip(s, IsDot)) == 0
  {
    var rest := s[1..];
    NoDots(rest);
    assert StripLeft(s, IsDot) == StripLeft(rest, IsDot) == rest;
    assert StripRight(rest, IsDot) == rest;
  }

  lemma {:induction false} NoDots(s: string)
    ensures DotCount(s) == 0 <==> '.' !in s
  {
    if s != "" {
      NoDots(s[1..]);
      assert '.' in s <==> s[0] == '.' || '.' in s[1..];
    }
  }

  /** A two-label end of a bare name is its own organisational domain. */
  lemma TwoLabelsStay(name: string)
    requires DotCount(name) >= 1 && IsLower(name) && Stripped(name, IsDot)
    ensures var r := LastTwoLabels(name); OrganizationalDomain(r) == r
  {
    var r := LastTwoLabels(name);
    LastTwoIsSuffix(name);
    assert forall i :: 0 <= i < |r| ==> r[i] == name[|name| - |r| + i];
    LowerIsLower(r);
    if r[0] == '.' {
      assert r[|r| - 1] == name[|name| - 1] != '.';
      StripOneDot(r);
      LowerDots(Strip(r, IsDot));
    } else {
      StripIsStripped(r, IsDot);
    }
  }

  lemma OrganizationalDomainIdempotent(domain: string)
    ensures OrganizationalDomain(OrganizationalDomain(domain)) == OrganizationalDomain(domain)
  {
    var stripped := Strip(domain, IsDot);
    var name := Lower(stripped);
    StripIsStripped(domain, IsDot);
    LowerIsLower(stripped);
    LowerKeepsStripped(stripped, IsDot);
    if DotCount(name) >= 1 {
      TwoLabelsStay(name);
    } else {
      LowerStrip(domain, IsDot);
      LowerIsLower(domain);
      LowerIsLower(Lower(domain));
      LowerIsLower(name);
    }
  }

  /** r is the end of name that holds exactly one dot and starts at a label boundary: its last two labels. */
  predicate EndsInTwoLabels(name: string, r: string) {
    EndsWith(name, r) && DotCount(r) == 1 && (r == name || name[|name| - |r| - 1] == '.')
  }

  lemma {:induction false} LastTwoAreTwo(s: string)
    requires DotCount(s) >= 1
    ensures EndsInTwoLabels(s, LastTwoLabels(s))
  {
    if DotCount(s) > 1 {
      LastTwoAreTwo(s[1..]);
      var r := LastTwoLabels(s[1..]);
      assert s[|s| - |r|..] == s[1..][|s[1..]| - |r|..];
    }
  }

  lemma {:induction false} LongerEndsHaveMoreDots(s: string, i: nat, j: nat)
    requires i <= j <= |s|
    ensures DotCount(s[i..]) >= DotCount(s[j..])
    decreases j - i
  {
    if i < j {
      assert s[i..][1..] == s[i + 1..];
      LongerEndsHaveMoreDots(s, i + 1, j);
    }
  }

  lemma LongerEndHasMore(name: string, i: nat, j: nat)
    requires i < j <= |name| && name[j - 1] == '.'
    ensures DotCount(name[i..]) > DotCount(name[j..])
  {
    assert name[j - 1..][1..] == name[j..];
    LongerEndsHaveMoreDots(name, i, j - 1);
  }

  lemma TwoLabelsAreUnique(name: string, r: string, q: string)
    requires EndsInTwoLabels(name, r) && EndsInTwoLabels(name, q)
    ensures r == q
  {
    var i, j := |name| - |r|, |name| - |q|;
    assert name[i..] == r && name[j..] == q;
    if i < j {
      LongerEndHasMore(name, i, j);
    } else if j < i {
      LongerEndHasMore(name, j, i);
    }
  }

  /** The organisational domain is exactly the last two labels of the bare name, when it has two. */
  lemma OrganizationalDomainExactly(domain: string, r: string)
    ensures r == OrganizationalDomain(domain) <==>
              if '.' in Bare(domain) then EndsInTwoLabels(Bare(domain), r) else r == Lower(domain)
  {
    var name := Bare(domain);
    NoDots(name);
    if '.' in name {
      var q := OrganizationalDomain(domain);
      assert EndsInTwoLabels(name, q) by { LastTwoAreTwo(name); }
      if EndsInTwoLabels(name, r) {
        TwoLabelsAreUnique(name, r, q);
      }
    }
  }

  /** Whether taking a name as it came, as the envelope comparison does, or bare, as alignment does, makes a difference:
      only for a single label written with outer dots. */
  lemma OrganizationalDomainOfBare(domain: string)
    ensures OrganizationalDomain(Bare(domain)) == OrganizationalDomain(domain)
            <==> '.' in Bare(domain) || Stripped(domain, IsDot)
  {
    var name := Bare(domain);
    var s := Strip(domain, IsDot);
    StripIsStripped(domain, IsDot);
    LowerIsLower(s);
    LowerKeepsStripped(s, IsDot);
    StripIsStripped(name, IsDot);
    LowerIsLower(name);
    NoDots(name);
    assert Bare(name) == name;
    if '.' !in name {
      LowerAt(domain);
      LowerAt(s);
      StripFixpoint(domain, IsDot);
      StripShrinks(domain);
    }
  }

  lemma StripShrinks(domain: string)
    ensures Strip(domain, IsDot) == domain || |Strip(domain, IsDot)| < |domain|
  {
    StripLeftEnd(domain, IsDot);
    StripRightEnd(StripLeft(domain, IsDot), IsDot);
  }

  lemma {:induction false} LowerDots(s: string)
    ensures DotCount(Lower(s)) == DotCount(s)
  {
    if s != "" { LowerDots(s[1..]); }
  }

  function DomainsAligned(fromDomain: string, authDomain: string, strict: bool): bool {
    if fromDomain == "" || authDomain == "" then false
    else
      var a := Bare(fromDomain);
      var b := Bare(authDomain);
      a == b || (!strict && OrganizationalDomain(a) == OrganizationalDomain(b))
  }

  /** Relaxed alignment is an equivalence on non-empty names, and strict alignment refines it. */
  lemma AlignmentIsEquivalence(a: string, b: string, c: string)
    requires a != "" && b != "" && c != ""
    ensures DomainsAligned(a, a, false)
    ensures DomainsAligned(a, b, false) == DomainsAligned(b, a, false)
    ensures DomainsAligned(a, b, false) && DomainsAligned(b, c, false) ==> DomainsAligned(a, c, false)
    ensures DomainsAligned(a, b, true) ==> DomainsAligned(a, b, false)
  {}

  /** The pairs on which the envelope comparison of the header check, which takes names as they came, and relaxed
      alignment, which strips them, differ: one name is a single label with outer dots, and either the other is the same
      label with other dots, or the name reads, dots included, as the last two labels of the other. */
  predicate Differ(a: string, b: string) {
    || ('.' !in Bare(a) && Bare(a) == Bare(b) && Lower(a) != Lower(b))
    || ('.' !in Bare(a) && EndsInTwoLabels(Bare(b), Lower(a)))
    || ('.' !in Bare(b) && EndsInTwoLabels(Bare(a), Lower(b)))
  }

  /** The organisational domain of a name and of its bare form, in the terms of Differ. */
  lemma OrganizationalForms(domain: string)
    ensures var name := Bare(domain);
            if '.' in name
            then OrganizationalDomain(name) == OrganizationalDomain(domain)
                 && EndsInTwoLabels(name, OrganizationalDomain(domain))
                 && (forall r {:trigger EndsInTwoLabels(name, r)} ::
                       EndsInTwoLabels(name, r) ==> r == OrganizationalDomain(domain))
            else OrganizationalDomain(name) == name && OrganizationalDomain(domain) == Lower(domain)
  {
    var name := Bare(domain);
    OrganizationalDomainOfBare(domain);
    OrganizationalDomainExactly(domain, OrganizationalDomain(domain));
    BareTwice(domain);
    OrganizationalDomainExactly(name, OrganizationalDomain(name));
    LowerIsLower(Strip(domain, IsDot));
    if '.' in name {
      forall r | EndsInTwoLabels(name, r) ensures r == OrganizationalDomain(domain) {
        OrganizationalDomainExactly(domain, r);
      }
    }
  }

  lemma BareTwice(domain: string)
    ensures Bare(Bare(domain)) == Bare(domain)
  {
    var s := Strip(domain, IsDot);
    StripIsStripped(domain, IsDot);
    LowerIsLower(s);
    LowerKeepsStripped(s, IsDot);
    StripIsStripped(Lower(s), IsDot);
    LowerIsLower(Lower(s));
  }

  lemma EndHasADot(name: string, r: string)
    requires EndsInTwoLabels(name, r)
    ensures '.' in name && '.' in r
  {
    NoDots(r);
    var i: nat :| i < |r| && r[i] == '.';
    assert name[|name| - |r| + i] == '.';
  }

  predicate Agree(a: string, b: string) {
    OrganizationalDomain(a) == OrganizationalDomain(b) <==> DomainsAligned(a, b, false)
  }

  lemma TwoOrMoreLabelsAgree(a: string, b: string)
    requires a != "" && b != "" && '.' in Bare(a) && '.' in Bare(b)
    ensures Agree(a, b)
  {
    OrganizationalForms(a);
    OrganizationalForms(b);
  }

  lemma SingleLabelAgreesExactly(a: string, b: string)
    requires a != "" && b != "" && '.' !in Bare(a)
    ensures Agree(a, b) <==> !Differ(a, b)
  {
    var dotted := EndsInTwoLabels(Bare(b), Lower(a));
    OrganizationalForms(a);
    OrganizationalForms(b);
    assert !EndsInTwoLabels(Bare(a), Lower(b)) by {
      if EndsInTwoLabels(Bare(a), Lower(b)) { EndHasADot(Bare(a), Lower(b)); }
    }
    if '.' in Bare(b) {
      EndHasADot(Bare(b), OrganizationalDomain(b));
      assert !DomainsAligned(a, b, false);
      assert OrganizationalDomain(a) == OrganizationalDomain(b) <==> dotted;
    } else {
      if dotted { EndHasADot(Bare(b), Lower(a)); }
      if Lower(a) == Lower(b) { LowerTellsBare(a, b); }
      assert DomainsAligned(a, b, false) <==> Bare(a) == Bare(b);
    }
  }

  /** The two comparisons agree on exactly the other pairs. */
  lemma SameOrganizationIsAlignedExactly(a: string, b: string)
    requires a != "" && b != ""
    ensures Agree(a, b) <==> !Differ(a, b)
  {
    if '.' !in Bare(a) {
      SingleLabelAgreesExactly(a, b);
    } else if '.' !in Bare(b) {
      SingleLabelAgreesExactly(b, a);
    } else {
      TwoOrMoreLabelsAgree(a, b);
    }
  }

  lemma LowerTellsBare(a: string, b: string)
    requires Lower(a) == Lower(b)
    ensures Bare(a) == Bare(b)
  {
    LowerStrip(a, IsDot);
    LowerStrip(b, IsDot);
  }

  /** A pair that differs: the header check takes .b for the organisation of a..b, alignment does not. */
  lemma DottedLabelDiffers()
    ensures OrganizationalDomain(".b") == OrganizationalDomain("a..b")
    ensures !DomainsAligned(".b", "a..b", false)
  {
    assert StripLeft(".b", IsDot) == StripLeft("b", IsDot) == "b";
    assert StripLeft("a..b", IsDot) == "a..b" && StripRight("a..b", IsDot) == "a..b";
    assert Bare(".b") == "b" && Bare("a..b") == "a..b";
    NoDots("b");
    assert DotCount("a..b") == 2;
    assert EndsInTwoLabels("a..b", ".b");
    SameOrganizationIsAlignedExactly(".b", "a..b");
    OrganizationalDomainExactly("a..b", ".b");
    OrganizationalDomainExactly(".b", ".b");
  }

  // ----- Policy discovery (compare RFC 7489, section 6.6.3) -----

  /** A DNS query: values, an authoritative no, or no usable answer. */
  datatype Dns<T> = Found(values: T) | NoRecord | Failure

  type TxtOracle = string -> Dns<seq<string>>

  function FirstDmarc(texts: seq<string>): Option<string> {
    if texts == [] then None
    else if StartsWith(Lower(texts[0]), "v=dmarc1") then Some(texts[0])
    else FirstDmarc(texts[1..])
  }

  function RecordAt(txt: TxtOracle, name: string): Option<string> {
    match txt("_dmarc." + name)
    case Found(texts) => FirstDmarc(texts)
    case NoRecord => None
    case Failure => None
  }

  datatype Discovery = Record(record: string, domain: string) | NoPolicy | Unknown

  /** The walk from a candidate upwards; `failed` says whether some lookup has failed already. */
  function WalkFrom(txt: TxtOracle, candidate: string, failed: bool): Discovery
    decreases |candidate|
  {
    if '.' !in candidate then (if failed then Unknown else NoPolicy)
    else if RecordAt(txt, candidate).Some? then Record(RecordAt(txt, candidate).value, candidate)
    else
      WalkFrom(txt, AfterFirst(candidate, '.'), failed || txt("_dmarc." + candidate).Failure?)
  }

  lemma {:induction false} OneDotLess(s: string)
    requires '.' in s
    ensures DotCount(AfterFirst(s, '.')) == DotCount(s) - 1
  {
    if s[0] != '.' {
      assert '.' in s[1..];
      OneDotLess(s[1..]);
    }
  }

  /** The loop as it runs: the dot count falls with each round. */
  method CheckDmarcRecord(domain: string, txt: TxtOracle) returns (r: Discovery)
    ensures r == WalkFrom(txt, Strip(domain, IsDot), false)
  {
    var candidate := Strip(domain, IsDot);
    var failed := false;
    NoDots(candidate);
    while DotCount(candidate) >= 1
      invariant WalkFrom(txt, candidate, failed) == WalkFrom(txt, Strip(domain, IsDot), false)
      invariant DotCount(candidate) == 0 <==> '.' !in candidate
      decreases DotCount(candidate)
    {
      match txt("_dmarc." + candidate) {
        case Found(texts) =>
          var record := FirstDmarc(texts);
          if record.Some? {
            return Record(record.value, candidate);
          }
        case NoRecord =>
        case Failure => failed := true;
      }
      OneDotLess(candidate);
      NoDots(AfterFirst(candidate, '.'));
      if DotCount(candidate) == 1 {
        return if failed then Unknown else NoPolicy;
      }
      candidate := AfterFirst(candidate, '.');
    }
    r := if failed then Unknown else NoPolicy;
  }

  /** name[i..] is a candidate of the walk: it starts at a label boundary and has two labels or more. */
  predicate Candidate(name: string, i: nat) {
    i <= |name| && (i == 0 || name[i - 1] == '.') && '.' in name[i..]
  }

  /** i is the position of the longest candidate that has a record. */
  ghost predicate Longest(txt: TxtOracle, name: string, i: nat) {
    && Candidate(name, i) && RecordAt(txt, name[i..]).Some?
    && (forall j: nat :: j < i && Candidate(name, j) ==> RecordAt(txt, name[j..]).None?)
  }

  /** The declarative result: the record of the longest candidate that has one; with none, unknown exactly when some
      candidate's lookup failed. */
  ghost predicate Discovers(txt: TxtOracle, name: string, r: Discovery) {
    match r
    case Record(_, _) =>
      exists i: nat :: Longest(txt, name, i) && r == Record(RecordAt(txt, name[i..]).value, name[i..])
    case NoPolicy =>
      forall j: nat :: Candidate(name, j) ==> RecordAt(txt, name[j..]).None? && !txt("_dmarc." + name[j..]).Failure?
    case Unknown =>
      && (forall j: nat :: Candidate(name, j) ==> RecordAt(txt, name[j..]).None?)
      && (exists j: nat :: Candidate(name, j) && txt("_dmarc." + name[j..]).Failure?)
  }

  /** The walk has come to position i: no longer candidate has a record, and `failed` remembers their failures. */
  ghost predicate Passed(txt: TxtOracle, name: string, i: nat, failed: bool) {
    && i <= |name| && (i == 0 || name[i - 1] == '.')
    && (forall j: nat :: j < i && Candidate(name, j) ==> RecordAt(txt, name[j..]).None?)
    && (failed <==> exists j: nat :: j < i && Candidate(name, j) && txt("_dmarc." + name[j..]).Failure?)
  }

  /** The next candidate starts after the next dot, and nothing between is one. */
  lemma NextCandidate(txt: TxtOracle, name: string, i: nat, failed: bool) returns (k: nat)
    requires Passed(txt, name, i, failed) && '.' in name[i..] && RecordAt(txt, name[i..]).None?
    ensures i < k && Passed(txt, name, k, failed || txt("_dmarc." + name[i..]).Failure?)
    ensures name[k..] == AfterFirst(name[i..], '.')
  {
    var p := FirstAt(name[i..], '.');
    k := i + p + 1;
    assert name[i..][p + 1..] == name[k..];
    assert Candidate(name, i);
    forall j: nat | i < j < k ensures !Candidate(name, j) {
      assert name[j - 1] == name[i..][..p][j - 1 - i];
    }
  }

  lemma {:induction false} WalkDiscovers(txt: TxtOracle, name: string, i: nat, failed: bool)
    requires Passed(txt, name, i, failed)
    ensures Discovers(txt, name, WalkFrom(txt, name[i..], failed))
    decreases |name| - i
  {
    if '.' !in name[i..] {
      forall j: nat | i <= j <= |name| ensures !Candidate(name, j) {
        assert name[j..] == name[i..][j - i..];
      }
    } else if RecordAt(txt, name[i..]).Some? {
      assert Longest(txt, name, i);
    } else {
      var k := NextCandidate(txt, name, i, failed);
      WalkDiscovers(txt, name, k, failed || txt("_dmarc." + name[i..]).Failure?);
    }
  }

  /** Policy discovery finds what it should, and there is only one thing it could find. */
  lemma DiscoveryIsExact(txt: TxtOracle, domain: string, r: Discovery)
    ensures Discovers(txt, Strip(domain, IsDot), r) <==> r == WalkFrom(txt, Strip(domain, IsDot), false)
  {
    var name := Strip(domain, IsDot);
    var found := WalkFrom(txt, name, false);
    WalkDiscovers(txt, name, 0, false);
    assert name[0..] == name;
    if Discovers(txt, name, r) {
      DiscoveryUnique(txt, name, found, r);
    }
  }

  lemma LongestUnique(txt: TxtOracle, name: string, i: nat, k: nat)
    requires Longest(txt, name, i) && Longest(txt, name, k)
    ensures i == k
  {}

  lemma DiscoveryUnique(txt: TxtOracle, name: string, r: Discovery, q: Discovery)
    requires Discovers(txt, name, r) && Discovers(txt, name, q)
    ensures r == q
  {
    if r.Record? && q.Record? {
      var i: nat :| Longest(txt, name, i) && r == Record(RecordAt(txt, name[i..]).value, name[i..]);
      var k: nat :| Longest(txt, name, k) && q == Record(RecordAt(txt, name[k..]).value, name[k..]);
      LongestUnique(txt, name, i, k);
    }
  }

  // ----- The verdict -----

  /** The value of the last `name=value` part with this name. */
  function Tag(parts: seq<string>, name: string): Option<string> {
    if parts == [] then None
    else
      var last := parts[|parts| - 1];
      if '=' in last && Lower(Strip(BeforeFirst(last, '='), IsSpace)) == name
      then Some(Strip(AfterFirst(last, '='), IsSpace))
      else Tag(parts[..|parts| - 1], name)
  }

  /** A tag list as a record spells it: name=value parts between semicolons. */
  function Render(tags: seq<(string, string)>): string {
    if tags == [] then ""
    else if |tags| == 1 then Part(tags[0])
    else Part(tags[0]) + ";" + Render(tags[1..])
  }

  function Part(tag: (string, string)): string { tag.0 + "=" + tag.1 }

  predicate OnePart(tag: (string, string)) { ';' !in tag.0 && ';' !in tag.1 }

  predicate Plain(tag: (string, string)) {
    && OnePart(tag) && '=' !in tag.0
    && Lower(Strip(tag.0, IsSpace)) == tag.0 && Strip(tag.1, IsSpace) == tag.1
  }

  /** The last value given to a name. */
  function LastValue(tags: seq<(string, string)>, name: string): Option<string> {
    if tags == [] then None
    else if tags[|tags| - 1].0 == name then Some(tags[|tags| - 1].1)
    else LastValue(tags[..|tags| - 1], name)
  }

  lemma {:induction false} SplitPart(p: string, rest: string)
    requires ';' !in p
    ensures Split(p, ';') == [p] && Split(p + ";" + rest, ';') == [p] + Split(rest, ';')
  {
    if p == "" {
      assert (p + ";" + rest)[1..] == rest;
    } else {
      assert (p + ";" + rest)[1..] == p[1..] + ";" + rest;
      SplitPart(p[1..], rest);
      assert [p[0]] + p[1..] == p;
    }
  }

  function Parts(tags: seq<(string, string)>): seq<string> {
    if tags == [] then [] else [Part(tags[0])] + Parts(tags[1..])
  }

  lemma {:induction false} PartsAt(tags: seq<(string, string)>)
    ensures |Parts(tags)| == |tags| && forall k :: 0 <= k < |tags| ==> Parts(tags)[k] == Part(tags[k])
  {
    if tags != [] { PartsAt(tags[1..]); }
  }

  lemma {:induction false} SplitRender(tags: seq<(string, string)>)
    requires tags != [] && forall k :: 0 <= k < |tags| ==> OnePart(tags[k])
    ensures Split(Render(tags), ';') == Parts(tags)
  {
    assert OnePart(tags[0]);
    if |tags| == 1 {
      SplitPart(Part(tags[0]), "");
      assert Parts(tags[1..]) == [];
    } else {
      SplitRender(tags[1..]);
      SplitPart(Part(tags[0]), Render(tags[1..]));
    }
  }

  lemma {:induction false} PartReads(name: string, value: string)
    requires '=' !in name
    ensures '=' in name + "=" + value
    ensures BeforeFirst(name + "=" + value, '=') == name && AfterFirst(name + "=" + value, '=') == value
  {
    if name == "" {
      assert (name + "=" + value)[1..] == value;
    } else {
      assert (name + "=" + value)[1..] == name[1..] + "=" + value;
      PartReads(name[1..], value);
    }
  }

  lemma {:induction false} TagReads(tags: seq<(string, string)>, parts: seq<string>, name: string)
    requires |parts| == |tags| && forall k :: 0 <= k < |tags| ==> Plain(tags[k]) && parts[k] == Part(tags[k])
    ensures Tag(parts, name) == LastValue(tags, name)
  {
    if tags != [] {
      var n := |tags| - 1;
      PartReads(tags[n].0, tags[n].1);
      TagReads(tags[..n], parts[..n], name);
    }
  }

  /** Reading a record back gives each name the last value it was written with. */
  lemma TagRoundTrip(tags: seq<(string, string)>, domain: string, name: string)
    requires tags != [] && forall k :: 0 <= k < |tags| ==> Plain(tags[k])
    ensures TagOf(Record(Render(tags), domain), name) == LastValue(tags, name)
  {
    SplitRender(tags);
    PartsAt(tags);
    TagReads(tags, Parts(tags), name);
  }

  function TagOf(d: Discovery, name: string): Option<string> {
    if d.Record? then Tag(Split(d.record, ';'), name) else None
  }

  function OrElse(o: Option<string>, default: string): string { if o.Some? && o.value != "" then o.value else default }

  function Strict(d: Discovery, name: string): bool { Lower(OrElse(TagOf(d, name), "r")) == "s" }

  /** The parts of the SPF and DKIM checks that DMARC reads. */
  datatype SpfView = SpfView(result: Option<string>, checkedSender: Option<string>)

  datatype DkimView = DkimView(verified: Option<bool>, signingDomain: Option<string>)

  function SenderDomain(address: Option<string>): Option<string> {
    if address.Some? && '@' in address.value then Some(Lower(Strip(AfterLast(address.value, '@'), IsSpace))) else None
  }

  function SpfAligned(domain: string, d: Discovery, spf: SpfView): bool {
    && spf.result == Some("pass")
    && DomainsAligned(domain, OrElse(SenderDomain(spf.checkedSender), domain), Strict(d, "aspf"))
  }

  function DkimAligned(domain: string, d: Discovery, dkim: DkimView): bool {
    dkim.verified == Some(true) && DomainsAligned(domain, OrElse(dkim.signingDomain, ""), Strict(d, "adkim"))
  }

  datatype DmarcResult = Pass | Fail | NoneFound | Undecided

  function DmarcVerdict(domain: string, d: Discovery, spf: SpfView, dkim: DkimView): DmarcResult {
    var evaluated := spf.result.Some? || dkim.verified.Some?;
    if d.Unknown? then Undecided
    else if d.NoPolicy? then NoneFound
    else if SpfAligned(domain, d, spf) || DkimAligned(domain, d, dkim) then Pass
    else if !evaluated then Undecided
    else Fail
  }

  /** The identifiers that SPF and DKIM vouch for (RFC 7489, sections 3.1.1 and 3.1.2), each with the tag that sets its
      alignment mode. */
  predicate Authenticated(domain: string, spf: SpfView, dkim: DkimView, id: string, tag: string) {
    || (tag == "aspf" && spf.result == Some("pass") && id == OrElse(SenderDomain(spf.checkedSender), domain))
    || (tag == "adkim" && dkim.verified == Some(true) && dkim.signingDomain == Some(id))
  }

  /** The same name, or the same last two labels. */
  ghost predicate SameOrganization(a: string, b: string) {
    Bare(a) == Bare(b) || exists r :: EndsInTwoLabels(Bare(a), r) && EndsInTwoLabels(Bare(b), r)
  }

  ghost predicate AlignedAs(id: string, domain: string, strict: bool) {
    id != "" && domain != "" && (if strict then Bare(id) == Bare(domain) else SameOrganization(id, domain))
  }

  lemma AlignedExactly(domain: string, id: string, strict: bool)
    ensures DomainsAligned(domain, id, strict) <==> AlignedAs(id, domain, strict)
  {
    OrganizationalForms(domain);
    OrganizationalForms(id);
    if '.' in Bare(domain) { EndHasADot(Bare(domain), OrganizationalDomain(domain)); }
    if '.' in Bare(id) { EndHasADot(Bare(id), OrganizationalDomain(id)); }
    if exists r :: EndsInTwoLabels(Bare(id), r) && EndsInTwoLabels(Bare(domain), r) {
      var r :| EndsInTwoLabels(Bare(id), r) && EndsInTwoLabels(Bare(domain), r);
      EndHasADot(Bare(id), r);
      EndHasADot(Bare(domain), r);
    }
  }

  /** Some authenticated identifier is aligned with the From domain under the record's mode for it. */
  ghost predicate SomeAligned(domain: string, d: Discovery, spf: SpfView, dkim: DkimView) {
    exists id, tag :: Authenticated(domain, spf, dkim, id, tag) && AlignedAs(id, domain, Strict(d, tag))
  }

  lemma SpfAlignedExactly(domain: string, d: Discovery, spf: SpfView)
    ensures SpfAligned(domain, d, spf) <==>
              spf.result == Some("pass")
              && AlignedAs(OrElse(SenderDomain(spf.checkedSender), domain), domain, Strict(d, "aspf"))
  {
    AlignedExactly(domain, OrElse(SenderDomain(spf.checkedSender), domain), Strict(d, "aspf"));
  }

  lemma DkimAlignedExactly(domain: string, d: Discovery, dkim: DkimView)
    ensures DkimAligned(domain, d, dkim) <==>
              && dkim.verified == Some(true) && dkim.signingDomain.Some?
              && AlignedAs(dkim.signingDomain.value, domain, Strict(d, "adkim"))
  {
    AlignedExactly(domain, OrElse(dkim.signingDomain, ""), Strict(d, "adkim"));
  }

  lemma SomeAlignedExactly(domain: string, d: Discovery, spf: SpfView, dkim: DkimView)
    ensures SomeAligned(domain, d, spf, dkim) <==> SpfAligned(domain, d, spf) || DkimAligned(domain, d, dkim)
  {
    SpfAlignedExactly(domain, d, spf);
    DkimAlignedExactly(domain, d, dkim);
    if SpfAligned(domain, d, spf) {
      assert Authenticated(domain, spf, dkim, OrElse(SenderDomain(spf.checkedSender), domain), "aspf");
    }
    if DkimAligned(domain, d, dkim) {
      assert Authenticated(domain, spf, dkim, dkim.signingDomain.value, "adkim");
    }
  }

  /** DMARC from end to end: the message passes exactly when the policy that discovery is to find is a record, under
      which some authenticated identifier is aligned; it fails exactly when that policy is a record, some mechanism gave
      a result, and no authenticated identifier is aligned. */
  lemma VerdictExactly(txt: TxtOracle, domain: string, policy: Discovery, spf: SpfView, dkim: DkimView)
    requires Discovers(txt, Strip(domain, IsDot), policy)
    ensures var verdict := DmarcVerdict(domain, WalkFrom(txt, Strip(domain, IsDot), false), spf, dkim);
            && (verdict.Pass? <==> policy.Record? && SomeAligned(domain, policy, spf, dkim))
            && (verdict.Fail? <==>
                  && policy.Record? && !SomeAligned(domain, policy, spf, dkim)
                  && (spf.result.Some? || dkim.verified.Some?))
  {
    DiscoveryIsExact(txt, domain, policy);
    SomeAlignedExactly(domain, policy, spf, dkim);
  }

  /** Relaxing the record's modes, or turning a mechanism that does not pass into one that does, never loses a pass. */
  lemma PassIsKept(domain: string, d: Discovery, e: Discovery, spf: SpfView, spf': SpfView, dkim: DkimView,
                   dkim': DkimView)
    requires DmarcVerdict(domain, d, spf, dkim).Pass?
    requires e.Record? && (Strict(e, "aspf") ==> Strict(d, "aspf")) && (Strict(e, "adkim") ==> Strict(d, "adkim"))
    requires spf' == spf || (spf.result != Some("pass") && spf'.result == Some("pass"))
    requires dkim' == dkim || (dkim.verified != Some(true) && dkim'.verified == Some(true))
    ensures DmarcVerdict(domain, e, spf', dkim').Pass?
  {
    if SpfAligned(domain, d, spf) {
      assert SpfAligned(domain, e, spf');
    } else {
      assert DkimAligned(domain, e, dkim');
    }
  }
}

/** The string operations the pipeline uses on addresses and domains, over ASCII. */
module Strings {

  function LowerChar(ch: char): char {
    if 'A' <= ch <= 'Z' then (ch as int + 32) as char else ch
  }

  /** The letters A to Z become a to z, each its own; nothing else changes. */
  lemma LowerCharIs(ch: char)
    ensures 'A' <= ch <= 'Z' ==> LowerChar(ch) as int - 'a' as int == ch as int - 'A' as int
    ensures !('A' <= ch <= 'Z') ==> LowerChar(ch) == ch
  {}

  function Lower(s: string): string {
    if s == "" then "" else [LowerChar(s[0])] + Lower(s[1..])
  }

  lemma LowerAt(s: string)
    ensures |Lower(s)| == |s|
    ensures forall i :: 0 <= i < |s| ==> Lower(s)[i] == LowerChar(s[i])
  {}

  predicate IsDot(ch: char) { ch == '.' }

  predicate IsSpace(ch: char) { ch == ' ' || '\t' <= ch <= '\r' || '\U{1c}' <= ch <= '\U{1f}' }

  /** Tab to carriage return, the four separators of ASCII, and the blank. */
  lemma SpacesAre(ch: char)
    ensures IsSpace(ch) <==> ch as int in {9, 10, 11, 12, 13, 28, 29, 30, 31, 32}
  {}

  function StripLeft(s: string, drop: char -> bool): string {
    if s != "" && drop(s[0]) then StripLeft(s[1..], drop) else s
  }

  lemma StripLeftEnd(s: string, drop: char -> bool)
    ensures var r := StripLeft(s, drop);
            && (r != "" ==> !drop(r[0]))
            && |r| <= |s| && r == s[|s| - |r|..]
            && (s != "" && !drop(s[0]) ==> r == s)
  {}

  function StripRight(s: string, drop: char -> bool): string {
    if s != "" && drop(s[|s| - 1]) then StripRight(s[..|s| - 1], drop) else s
  }

  lemma StripRightEnd(s: string, drop: char -> bool)
    ensures var r := StripRight(s, drop);
            && (r != "" ==> !drop(r[|r| - 1]))
            && |r| <= |s| && r == s[..|r|]
            && (s != "" && !drop(s[|s| - 1]) ==> r == s)
  {}

  function Strip(s: string, drop: char -> bool): string { StripRight(StripLeft(s, drop), drop) }

  predicate Stripped(s: string, drop: char -> bool) { s != "" ==> !drop(s[0]) && !drop(s[|s| - 1]) }

  predicate IsLower(s: string) { forall i :: 0 <= i < |s| ==> LowerChar(s[i]) == s[i] }

  lemma StripIsStripped(s: string, drop: char -> bool)
    ensures Stripped(Strip(s, drop), drop)
    ensures Stripped(s, drop) ==> Strip(s, drop) == s
  {
    var left := StripLeft(s, drop);
    var both := StripRight(left, drop);
    StripLeftEnd(s, drop);
    StripRightEnd(left, drop);
    if both != "" { assert both[0] == left[0]; }
  }

  /** Only a string with no dropped end is left alone. */
  lemma StripFixpoint(s: string, drop: char -> bool)
    ensures Strip(s, drop) == s <==> Stripped(s, drop)
  {
    StripIsStripped(s, drop);
  }

  lemma LowerIsLower(s: string)
    ensures IsLower(Lower(s))
    ensures IsLower(s) <==> Lower(s) == s
  {
    LowerAt(s);
    if IsLower(s) { assert Lower(s) == s; }
  }

  lemma LowerKeepsStripped(s: string, drop: char -> bool)
    requires forall ch :: drop(LowerChar(ch)) == drop(ch)
    ensures Stripped(Lower(s), drop) == Stripped(s, drop)
  {
    LowerAt(s);
  }

  predicate EndsWith(s: string, suffix: string) { |suffix| <= |s| && s[|s| - |suffix|..] == suffix }

  predicate StartsWith(s: string, prefix: string) { prefix <= s }

  lemma {:induction false} LowerSplits(s: string, t: string)
    ensures Lower(s + t) == Lower(s) + Lower(t)
  {
    if s == "" {
      assert s + t == t;
    } else {
      assert (s + t)[1..] == s[1..] + t;
      LowerSplits(s[1..], t);
    }
  }

  lemma {:induction false} LowerStripLeft(s: string, drop: char -> bool)
    requires forall ch :: drop(LowerChar(ch)) == drop(ch)
    ensures Lower(StripLeft(s, drop)) == StripLeft(Lower(s), drop)
  {
    if s != "" && drop(s[0]) { LowerStripLeft(s[1..], drop); }
  }

  lemma {:induction false} LowerStripRight(s: string, drop: char -> bool)
    requires forall ch :: drop(LowerChar(ch)) == drop(ch)
    ensures Lower(StripRight(s, drop)) == StripRight(Lower(s), drop)
  {
    if s != "" {
      var front, last := s[..|s| - 1], s[|s| - 1];
      assert s == front + [last];
      LowerSplits(front, [last]);
      assert Lower(s) == Lower(front) + [LowerChar(last)];
      if drop(last) { LowerStripRight(front, drop); }
    }
  }

  lemma LowerStrip(s: string, drop: char -> bool)
    requires forall ch :: drop(LowerChar(ch)) == drop(ch)
    ensures Lower(Strip(s, drop)) == Strip(Lower(s), drop)
  {
    LowerStripLeft(s, drop);
    LowerStripRight(StripLeft(s, drop), drop);
  }

  /** The parts between the occurrences of a one-character separator. */
  function Split(s: string, sep: char): (r: seq<string>)
    ensures r != []
  {
    if s == "" then [""]
    else
      var rest := Split(s[1..], sep);
      if s[0] == sep then [""] + rest else [[s[0]] + rest[0]] + rest[1..]
  }

  /** What follows the first separator. */
  function AfterFirst(s: string, sep: char): (r: string)
    requires sep in s
    ensures |r| < |s|
  {
    if s[0] == sep then s[1..] else AfterFirst(s[1..], sep)
  }

  lemma {:induction false} FirstAt(s: string, sep: char) returns (p: nat)
    requires sep in s
    ensures p < |s| && s[p] == sep && sep !in s[..p] && AfterFirst(s, sep) == s[p + 1..]
  {
    if s[0] == sep {
      p := 0;
    } else {
      p := FirstAt(s[1..], sep);
      p := p + 1;
      assert s[..p] == [s[0]] + s[1..][..p - 1];
    }
  }

  function BeforeFirst(s: string, sep: char): string
    requires sep in s
  {
    if s[0] == sep then "" else [s[0]] + BeforeFirst(s[1..], sep)
  }

  /** What follows the last separator, or all of s when there is none. */
  function AfterLast(s: string, sep: char): string
    decreases |s|
  {
    if sep in s then AfterLast(AfterFirst(s, sep), sep) else s
  }
}

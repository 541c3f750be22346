/** Character classes and string searches used by the codec and by platform detection. */
module Text {

  predicate IsDigit(c: char) {
    '0' <= c <= '9'
  }

  /** JSON insignificant whitespace (section 2 of RFC 8259). */
  predicate IsSpace(c: char) {
    c == ' ' || c == '\t' || c == '\n' || c == '\r'
  }

  predicate AllSpace(w: string) {
    forall i :: 0 <= i < |w| ==> IsSpace(w[i])
  }

  /** Drops the leading whitespace of `t`. */
  function SkipSpace(t: string): string
    decreases |t|
  {
    if |t| > 0 && IsSpace(t[0]) then SkipSpace(t[1..]) else t
  }

  /** What `SkipSpace` leaves: the suffix of `t` after its longest all-space prefix. */
  lemma {:induction false} SkipSpaceShape(t: string)
    ensures |SkipSpace(t)| <= |t|
    ensures SkipSpace(t) == t[|t| - |SkipSpace(t)|..]
    ensures SkipSpace(t) == [] || !IsSpace(SkipSpace(t)[0])
    ensures AllSpace(t[..|t| - |SkipSpace(t)|])
    decreases |t|
  {
    if |t| > 0 && IsSpace(t[0]) {
      SkipSpaceShape(t[1..]);
      var r := SkipSpace(t[1..]);
      assert t[..|t| - |r|] == [t[0]] + t[1..][..|t| - 1 - |r|];
    }
  }

  lemma SkipSpaceOver(w: string, x: string)
    requires AllSpace(w)
    requires x == [] || !IsSpace(x[0])
    ensures SkipSpace(w + x) == x
  {
    var t := w + x;
    SkipSpaceShape(t);
    var r := SkipSpace(t);
    var k := |t| - |r|;
    assert forall i :: 0 <= i < |w| ==> t[i] == w[i];
    assert forall i :: 0 <= i < |r| ==> r[i] == t[k + i];
    assert forall i :: 0 <= i < k ==> t[..k][i] == t[i];
    assert r == t[|w|..] == x;
  }

  predicate StartsWith(s: string, prefix: string) {
    |prefix| <= |s| && s[..|prefix|] == prefix
  }

  predicate EndsWith(s: string, suffix: string) {
    |suffix| <= |s| && s[|s| - |suffix|..] == suffix
  }

  /** `pat` sits in `s` starting at offset `i`. */
  ghost predicate OccursAt(s: string, pat: string, i: int) {
    0 <= i && i + |pat| <= |s| && s[i..i + |pat|] == pat
  }

  /** Reference meaning of a literal regular expression matching somewhere in `s`. */
  ghost predicate Occurs(s: string, pat: string) {
    exists i :: OccursAt(s, pat, i)
  }

  lemma OccursShift(s: string, pat: string)
    requires |s| > 0 && !StartsWith(s, pat)
    ensures Occurs(s, pat) <==> Occurs(s[1..], pat)
  {
    if Occurs(s, pat) {
      var i :| OccursAt(s, pat, i);
      assert i != 0;
      assert s[1..][i - 1..i - 1 + |pat|] == s[i..i + |pat|];
      assert OccursAt(s[1..], pat, i - 1);
    }
    if Occurs(s[1..], pat) {
      var j :| OccursAt(s[1..], pat, j);
      assert s[j + 1..j + 1 + |pat|] == s[1..][j..j + |pat|];
      assert OccursAt(s, pat, j + 1);
    }
  }

  /** Every character of a pattern that occurs in `s` is a character of `s`. */
  lemma OccursHasChar(s: string, pat: string, j: int)
    requires 0 <= j < |pat|
    ensures Occurs(s, pat) ==> pat[j] in s
  {
  }

  /** Left-to-right search for a literal, as `RegExp.prototype.test` does for a pattern without metacharacters. */
  function Contains(s: string, pat: string): (r: bool)
    ensures r <==> Occurs(s, pat)
    decreases |s|
  {
    if StartsWith(s, pat) then
      assert OccursAt(s, pat, 0);
      true
    else if |s| == 0 then
      assert forall i :: !OccursAt(s, pat, i);
      false
    else
      OccursShift(s, pat);
      Contains(s[1..], pat)
  }

  /** ASCII lower-casing of one character; every other character is left alone. */
  function LowerChar(c: char): char {
    if 'A' <= c <= 'Z' then (c as int + ('a' as int - 'A' as int)) as char else c
  }

  function Lower(s: string): (r: string)
    ensures |r| == |s|
    ensures forall i :: 0 <= i < |s| ==> r[i] == LowerChar(s[i])
  {
    if |s| == 0 then [] else [LowerChar(s[0])] + Lower(s[1..])
  }

  /** The first field of `s.split(c)`: everything before the first `c`, or all of `s` when there is none. */
  function BeforeFirst(s: string, c: char): (r: string)
    ensures r <= s
    ensures c !in r
    ensures |r| < |s| ==> s[|r|] == c
  {
    if |s| == 0 || s[0] == c then [] else [s[0]] + BeforeFirst(s[1..], c)
  }

  lemma BeforeFirstOf(head: string, c: char, rest: string)
    requires c !in head
    ensures BeforeFirst(head + [c] + rest, c) == head
  {
    var t := head + [c] + rest;
    var r := BeforeFirst(t, c);
    assert forall i :: 0 <= i < |head| ==> t[i] == head[i];
    assert t[|head|] == c;
    assert forall i :: 0 <= i < |r| ==> r[i] == t[i];
    assert r == t[..|head|] == head;
  }
}

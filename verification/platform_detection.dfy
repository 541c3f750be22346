/** `detectPlatform`: which download to recommend, from the browser's user-agent string. */
module PlatformDetection {
  import opened Text

  /** `pat` sits in `s` at offset `i` when ASCII letters are compared without regard to case. */
  ghost predicate FoldedAt(s: string, pat: string, i: int) {
    0 <= i && i + |pat| <= |s| && forall j :: 0 <= j < |pat| ==> LowerChar(s[i + j]) == LowerChar(pat[j])
  }

  /**
   * Reference meaning of a case-insensitive literal regular expression such as
   * `/android/i`. Without the `u` flag JavaScript folds case by upper-casing
   * and never maps a non-ASCII character onto an ASCII one, so for an ASCII
   * pattern this is exactly ASCII case folding.
   */
  ghost predicate OccursFolded(s: string, pat: string) {
    exists i :: FoldedAt(s, pat, i)
  }

  lemma OccursAtLower(s: string, pat: string, i: int)
    ensures OccursAt(Lower(s), Lower(pat), i) <==> FoldedAt(s, pat, i)
  {
  }

  lemma OccursLower(s: string, pat: string)
    ensures Occurs(Lower(s), Lower(pat)) <==> OccursFolded(s, pat)
  {
    if Occurs(Lower(s), Lower(pat)) {
      var i :| OccursAt(Lower(s), Lower(pat), i);
      OccursAtLower(s, pat, i);
    }
    if OccursFolded(s, pat) {
      var i :| FoldedAt(s, pat, i);
      OccursAtLower(s, pat, i);
    }
  }

  /** `/pat/i.test(s)` for an ASCII `pat`. */
  function ContainsIgnoreCase(s: string, pat: string): (r: bool)
    ensures r <==> OccursFolded(s, pat)
  {
    OccursLower(s, pat);
    Contains(Lower(s), Lower(pat))
  }

  /** `/iPad|iPhone|iPod/.test(s)`: case-sensitive. */
  ghost predicate NamesAppleDevice(s: string) {
    Occurs(s, "iPad") || Occurs(s, "iPhone") || Occurs(s, "iPod")
  }

  /**
   * `detectPlatform`: "android" when the user agent mentions android in any
   * letter case, else "ios" when it names an iPad, iPhone or iPod exactly and
   * `window.MSStream` is absent, else "desktop".
   */
  function DetectPlatform(userAgent: string, msStream: bool): (r: string)
    ensures r == "android" || r == "ios" || r == "desktop"
    ensures r == "android" <==> OccursFolded(userAgent, "android")
    ensures r == "ios" <==> !OccursFolded(userAgent, "android") && NamesAppleDevice(userAgent) && !msStream
  {
    if ContainsIgnoreCase(userAgent, "android") then
      "android"
    else if (Contains(userAgent, "iPad") || Contains(userAgent, "iPhone") || Contains(userAgent, "iPod")) && !msStream then
      "ios"
    else
      "desktop"
  }

  /** Any spelling of "android" in the user agent wins, even next to "iPhone". */
  lemma AndroidInAnyCase(userAgent: string, spelling: string, msStream: bool)
    requires Lower(spelling) == "android"
    requires Occurs(userAgent, spelling)
    ensures DetectPlatform(userAgent, msStream) == "android"
  {
    var i :| OccursAt(userAgent, spelling, i);
    assert Lower("android") == "android";
    forall j | 0 <= j < |spelling|
      ensures LowerChar(userAgent[i + j]) == LowerChar("android"[j])
    {
      assert userAgent[i + j] == userAgent[i..i + |spelling|][j] == spelling[j];
      assert LowerChar(spelling[j]) == Lower(spelling)[j] == "android"[j] == Lower("android")[j];
    }
    assert FoldedAt(userAgent, "android", i);
  }

  /** The Apple device names are matched case-sensitively: "iphone" alone is a desktop. */
  lemma LowercaseIPhoneIsDesktop()
    ensures DetectPlatform("iphone", false) == "desktop"
  {
    assert !OccursFolded("iphone", "android");
    assert "iPad"[1] == 'P' && "iPhone"[1] == 'P' && "iPod"[1] == 'P' && 'P' !in "iphone";
    OccursHasChar("iphone", "iPad", 1);
    OccursHasChar("iphone", "iPhone", 1);
    OccursHasChar("iphone", "iPod", 1);
  }

  /** With `window.MSStream` present (an old Windows Phone claiming to be an iPhone), the answer is never "ios". */
  lemma MSStreamNeverIOS(userAgent: string)
    ensures DetectPlatform(userAgent, true) != "ios"
  {
  }
}

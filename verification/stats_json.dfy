/**
 * The text form of the counters record: what `JSON.stringify` writes for it
 * (compact, and indented by two spaces for the export file) and what
 * `JSON.parse` reads back.
 */
module StatsJson {
  import opened Options
  import opened Text
  import opened DownloadStats

  function DigitChar(d: nat): char
    requires d < 10
  {
    ('0' as int + d) as char
  }

  function DigitValue(c: char): nat
    requires IsDigit(c)
  {
    c as int - '0' as int
  }

  predicate AllDigits(s: string) {
    forall i :: 0 <= i < |s| ==> IsDigit(s[i])
  }

  /** Decimal numeral of `n` as JavaScript prints an integer: at least one digit, no leading zero. */
  function NatToDigits(n: nat): (r: string)
    ensures |r| > 0 && AllDigits(r)
    ensures r[0] == '0' <==> n == 0
    ensures n < 10 ==> |r| == 1
    decreases n
  {
    if n < 10 then [DigitChar(n)] else NatToDigits(n / 10) + [DigitChar(n % 10)]
  }

  /** Value of a numeral, most significant digit first. */
  function DigitsValue(s: string): nat
    requires AllDigits(s)
    decreases |s|
  {
    if |s| == 0 then 0 else DigitsValue(s[..|s| - 1]) * 10 + DigitValue(s[|s| - 1])
  }

  lemma {:induction false} DigitsValueOfNat(n: nat)
    ensures DigitsValue(NatToDigits(n)) == n
    decreases n
  {
    if n >= 10 {
      var s := NatToDigits(n);
      assert s[..|s| - 1] == NatToDigits(n / 10);
      DigitsValueOfNat(n / 10);
    }
  }

  /** Length of the run of digits at the start of `t`. */
  function DigitRun(t: string): (k: nat)
    ensures k <= |t|
    ensures forall i :: 0 <= i < k ==> IsDigit(t[i])
    ensures k < |t| ==> !IsDigit(t[k])
    decreases |t|
  {
    if |t| > 0 && IsDigit(t[0]) then 1 + DigitRun(t[1..]) else 0
  }

  /**
   * A JSON number that is a non-negative integer, and the text after it.
   * A numeral with a leading zero ("01") is not JSON.
   */
  function ParseNat(t: string): Option<(nat, string)> {
    var k := DigitRun(t);
    if k == 0 || (k > 1 && t[0] == '0') then None
    else Some((DigitsValue(t[..k]), t[k..]))
  }

  lemma ParseNatOfDigits(n: nat, rest: string)
    requires rest == [] || !IsDigit(rest[0])
    ensures ParseNat(NatToDigits(n) + rest) == Some((n, rest))
  {
    var d := NatToDigits(n);
    var t := d + rest;
    var k := DigitRun(t);
    assert forall i :: 0 <= i < |d| ==> t[i] == d[i];
    assert |rest| > 0 ==> t[|d|] == rest[0];
    assert k == |d|;
    assert t[..k] == d;
    assert t[k..] == rest;
    DigitsValueOfNat(n);
  }

  /** The rest of `t` after the literal `lit`, if `t` starts with it. */
  function Expect(t: string, lit: string): Option<string> {
    if StartsWith(t, lit) then Some(t[|lit|..]) else None
  }

  lemma ExpectOf(lit: string, rest: string)
    ensures Expect(lit + rest, lit) == Some(rest)
  {
  }

  function Quoted(key: string): string {
    "\"" + key + "\""
  }

  /** One `"key": value` member of the object, whitespace allowed around the tokens. */
  function Member(t: string, key: string): Option<(nat, string)> {
    var t1 :- Expect(SkipSpace(t), Quoted(key));
    var t2 :- Expect(SkipSpace(t1), ":");
    ParseNat(SkipSpace(t2))
  }

  /**
   * `JSON.parse` of a stored record. Accepted: an object with the members
   * android, ios and total, in that order, each a non-negative integer, with
   * JSON whitespace between tokens and nothing but whitespace after the
   * closing brace.
   */
  function Decode(t: string): (r: Option<Stats>)
    ensures r.Some? ==> SkipSpace(t) != [] && SkipSpace(t)[0] == '{'
    ensures t == "" ==> r == None
  {
    var t1 :- Expect(SkipSpace(t), "{");
    var a :- Member(t1, "android");
    var t2 :- Expect(SkipSpace(a.1), ",");
    var i :- Member(t2, "ios");
    var t3 :- Expect(SkipSpace(i.1), ",");
    var n :- Member(t3, "total");
    var t4 :- Expect(SkipSpace(n.1), "}");
    if SkipSpace(t4) == [] then Some(Stats(a.0, i.0, n.0)) else None
  }

  /** One member `"key": n` followed by the text `rest`, with `indent` before the key and `gap` after the colon. */
  function MemberThen(key: string, n: nat, indent: string, gap: string, rest: string): string {
    indent + (Quoted(key) + (":" + (gap + (NatToDigits(n) + rest))))
  }

  /**
   * `JSON.stringify` of the record: `indent` goes before each member, `gap`
   * after each colon and `close` before the closing brace.
   */
  function Render(s: Stats, indent: string, gap: string, close: string): string {
    "{" + MemberThen("android", s.android, indent, gap,
      "," + MemberThen("ios", s.ios, indent, gap,
        "," + MemberThen("total", s.total, indent, gap,
          close + "}")))
  }

  /** `JSON.stringify(stats)`, the form written to storage: non-empty, and it reads back as `s`. */
  function Stringify(s: Stats): (r: string)
    ensures Decode(r) == Some(s)
    ensures r != ""
  {
    DecodeRender(s, "", "", "");
    Render(s, "", "", "")
  }

  /** `JSON.stringify(stats, null, 2)`, the form written to the export file: it reads back as `s`. */
  function StringifyPretty(s: Stats): (r: string)
    ensures Decode(r) == Some(s)
  {
    DecodeRender(s, "\n  ", " ", "\n");
    Render(s, "\n  ", " ", "\n")
  }

  lemma SkipNoSpace(t: string)
    requires t == [] || !IsSpace(t[0])
    ensures SkipSpace(t) == t
  {
  }

  lemma MemberOfText(key: string, n: nat, indent: string, gap: string, rest: string)
    requires AllSpace(indent) && AllSpace(gap)
    requires rest == [] || !IsDigit(rest[0])
    ensures Member(MemberThen(key, n, indent, gap, rest), key) == Some((n, rest))
  {
    var digits := NatToDigits(n) + rest;
    var afterColon := gap + digits;
    var afterKey := ":" + afterColon;
    var t := MemberThen(key, n, indent, gap, rest);
    assert Expect(SkipSpace(t), Quoted(key)) == Some(afterKey) by {
      SkipSpaceOver(indent, Quoted(key) + afterKey);
      ExpectOf(Quoted(key), afterKey);
    }
    assert Expect(SkipSpace(afterKey), ":") == Some(afterColon) by {
      SkipNoSpace(afterKey);
      ExpectOf(":", afterColon);
    }
    assert ParseNat(SkipSpace(afterColon)) == Some((n, rest)) by {
      SkipSpaceOver(gap, digits);
      ParseNatOfDigits(n, rest);
    }
  }

  /** Whatever layout `JSON.stringify` chose, parsing the text gives the record back. */
  lemma {:induction false} DecodeRender(s: Stats, indent: string, gap: string, close: string)
    requires AllSpace(indent) && AllSpace(gap) && AllSpace(close)
    ensures Decode(Render(s, indent, gap, close)) == Some(s)
  {
    var tail3 := close + "}";
    var tail2 := "," + MemberThen("total", s.total, indent, gap, tail3);
    var tail1 := "," + MemberThen("ios", s.ios, indent, gap, tail2);
    var t := "{" + MemberThen("android", s.android, indent, gap, tail1);

    SkipNoSpace(t);
    ExpectOf("{", MemberThen("android", s.android, indent, gap, tail1));
    MemberOfText("android", s.android, indent, gap, tail1);

    SkipNoSpace(tail1);
    ExpectOf(",", MemberThen("ios", s.ios, indent, gap, tail2));
    MemberOfText("ios", s.ios, indent, gap, tail2);

    SkipNoSpace(tail2);
    ExpectOf(",", MemberThen("total", s.total, indent, gap, tail3));
    MemberOfText("total", s.total, indent, gap, tail3);

    SkipSpaceOver(close, "}");
    ExpectOf("}", []);
    assert "}" + [] == "}";
    SkipNoSpace([]);
  }
}

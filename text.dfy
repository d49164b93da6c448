/** String helpers the components rely on: `toLowerCase`, `includes`, `trim`,
    decimal rendering of counters, `padStart(2, '0')`, and reading a clock string
    such as "1:05:09" back into seconds. */
module Text {

  import opened Types

  // ---------------------------------------------------------------- case

  function LowerChar(c: char): (r: char)
    ensures 'A' <= c <= 'Z' ==> r as int == c as int + 32
    ensures !('A' <= c <= 'Z') ==> r == c
  {
    if 'A' <= c <= 'Z' then (c as int + 32) as char else c
  }

  /** `toLowerCase`, restricted to the ASCII letters. */
  function ToLower(s: string): (r: string)
    ensures |r| == |s|
    ensures forall i :: 0 <= i < |s| ==> r[i] == LowerChar(s[i])
  {
    seq(|s|, i requires 0 <= i < |s| => LowerChar(s[i]))
  }

  // ---------------------------------------------------------------- includes

  /** `sub` occurs in `s` starting at position `i`. */
  ghost predicate OccursAt(s: string, sub: string, i: int) {
    0 <= i && i + |sub| <= |s| && s[i..i + |sub|] == sub
  }

  /** `s.includes(sub)`: some slice of `s` equals `sub`. */
  function Includes(s: string, sub: string): (r: bool)
    ensures r <==> exists i :: OccursAt(s, sub, i)
  {
    if |sub| <= |s| && s[..|sub|] == sub then
      assert OccursAt(s, sub, 0);
      true
    else if |s| <= |sub| then
      assert forall i :: OccursAt(s, sub, i) ==> i == 0 && |sub| == |s|;
      false
    else
      var rest := Includes(s[1..], sub);
      ShiftOccurrence(s, sub);
      rest
  }

  lemma ShiftOccurrence(s: string, sub: string)
    requires |s| > 0 && !(|sub| <= |s| && s[..|sub|] == sub)
    ensures (exists i :: OccursAt(s, sub, i)) <==> (exists j :: OccursAt(s[1..], sub, j))
  {
    if i :| OccursAt(s, sub, i) {
      assert |sub| <= |s| && s[..|sub|] != sub;
      assert s[i..i + |sub|] == sub;
      assert i != 0;
      assert s[1..][i - 1..i - 1 + |sub|] == s[i..i + |sub|];
      assert OccursAt(s[1..], sub, i - 1);
    }
    if j :| OccursAt(s[1..], sub, j) {
      assert s[1..][j..j + |sub|] == s[j + 1..j + 1 + |sub|];
      assert OccursAt(s, sub, j + 1);
    }
  }

  /** Every string includes the empty string. */
  lemma IncludesEmpty(s: string)
    ensures Includes(s, "")
  {
    assert OccursAt(s, "", 0);
  }

  // ---------------------------------------------------------------- trim

  /** The characters `String.prototype.trim` strips: ASCII white space, the line
      terminators, the byte-order mark and every space separator (no-break
      space, ogham space mark, the en quad to hair space range, narrow no-break
      space, medium mathematical space and ideographic space). */
  predicate IsSpace(c: char) {
    c == ' ' || c == '\t' || c == '\n' || c == '\r' || c == '\U{0B}' || c == '\U{0C}'
    || c == '\U{A0}' || c == '\U{FEFF}' || c == '\U{2028}' || c == '\U{2029}'
    || c == '\U{1680}' || ('\U{2000}' <= c <= '\U{200A}') || c == '\U{202F}' || c == '\U{205F}'
    || c == '\U{3000}'
  }

  function TrimStart(s: string): (r: string)
    ensures |r| <= |s| && r == s[|s| - |r|..]
    ensures r == [] || !IsSpace(r[0])
    ensures forall i :: 0 <= i < |s| - |r| ==> IsSpace(s[i])
  {
    if s != [] && IsSpace(s[0]) then
      var r := TrimStart(s[1..]);
      assert s[1..][|s| - 1 - |r|..] == s[|s| - |r|..];
      forall i | 1 <= i < |s| - |r| ensures IsSpace(s[i]) {
        assert s[i] == s[1..][i - 1];
      }
      r
    else s
  }

  function TrimEnd(s: string): (r: string)
    ensures |r| <= |s| && r == s[..|r|]
    ensures r == [] || !IsSpace(r[|r| - 1])
    ensures forall i :: |r| <= i < |s| ==> IsSpace(s[i])
  {
    if s != [] && IsSpace(s[|s| - 1]) then TrimEnd(s[..|s| - 1]) else s
  }

  /** `s.trim()`: the slice of `s` left after dropping white space at both ends. */
  function Trim(s: string): (r: string)
    ensures exists lo, hi ::
      && 0 <= lo <= hi <= |s| && r == s[lo..hi]
      && (forall i :: 0 <= i < lo ==> IsSpace(s[i]))
      && (forall i :: hi <= i < |s| ==> IsSpace(s[i]))
    ensures r != [] ==> !IsSpace(r[0]) && !IsSpace(r[|r| - 1])
    ensures r == [] <==> forall i :: 0 <= i < |s| ==> IsSpace(s[i])
  {
    var a := TrimStart(s);
    var b := TrimEnd(a);
    TrimmedSlice(s, a, b);
    b
  }

  /** A suffix `a` of `s` after white space, cut down to a prefix `b` before
      white space, is a slice of `s` with white space only around it. */
  lemma TrimmedSlice(s: string, a: string, b: string)
    requires |a| <= |s| && a == s[|s| - |a|..] && forall i :: 0 <= i < |s| - |a| ==> IsSpace(s[i])
    requires a == [] || !IsSpace(a[0])
    requires |b| <= |a| && b == a[..|b|] && forall i :: |b| <= i < |a| ==> IsSpace(a[i])
    ensures var lo := |s| - |a|;
      && b == s[lo..lo + |b|]
      && (forall i :: 0 <= i < lo ==> IsSpace(s[i]))
      && (forall i :: lo + |b| <= i < |s| ==> IsSpace(s[i]))
    ensures b != [] ==> !IsSpace(b[0])
  {
    var lo := |s| - |a|;
    assert b == s[lo..lo + |b|];
    forall i | lo + |b| <= i < |s| ensures IsSpace(s[i]) {
      assert s[i] == a[i - lo];
    }
    if b != [] {
      assert b[0] == a[0];
    }
  }

  // ---------------------------------------------------------------- digits

  predicate IsDigit(c: char) {
    '0' <= c <= '9'
  }

  predicate AllDigits(s: string) {
    forall i :: 0 <= i < |s| ==> IsDigit(s[i])
  }

  function DigitChar(n: nat): (c: char)
    requires n < 10
    ensures IsDigit(c)
  {
    (n + '0' as int) as char
  }

  /** The decimal rendering of a number, as a template literal `${n}` gives it. */
  function NatToString(n: nat): (s: string)
    ensures |s| > 0 && AllDigits(s)
    ensures n == 0 ==> s == "0"
    ensures n > 0 ==> s[0] != '0'
  {
    if n < 10 then [DigitChar(n)] else NatToString(n / 10) + [DigitChar(n % 10)]
  }

  /** The value of a string of decimal digits. */
  function ParseNat(s: string): nat
    requires AllDigits(s)
  {
    if s == [] then 0 else ParseNat(s[..|s| - 1]) * 10 + (s[|s| - 1] as int - '0' as int)
  }

  lemma {:induction false} ParseNatToString(n: nat)
    ensures ParseNat(NatToString(n)) == n
  {
    var s := NatToString(n);
    if n >= 10 {
      ParseNatToString(n / 10);
      assert s[..|s| - 1] == NatToString(n / 10);
    }
  }

  lemma {:induction false} ParseNatLeadingZero(s: string)
    requires AllDigits(s)
    ensures AllDigits("0" + s) && ParseNat("0" + s) == ParseNat(s)
  {
    if s != [] {
      ParseNatLeadingZero(s[..|s| - 1]);
      assert ("0" + s)[..|"0" + s| - 1] == "0" + s[..|s| - 1];
    }
  }

  /** `s.padStart(2, '0')`. */
  function PadStart2(s: string): (r: string)
    ensures |s| >= 2 ==> r == s
    ensures |s| < 2 ==> |r| == 2 && r[2 - |s|..] == s
    ensures forall i :: 0 <= i < 2 - |s| ==> r[i] == '0'
  {
    if |s| == 0 then "00" else if |s| == 1 then "0" + s else s
  }

  /** Padding a counter keeps its value and width at least two. */
  lemma PadStart2Value(n: nat)
    ensures AllDigits(PadStart2(NatToString(n)))
    ensures ParseNat(PadStart2(NatToString(n))) == n
    ensures |PadStart2(NatToString(n))| >= 2
    ensures n < 100 ==> |PadStart2(NatToString(n))| == 2
  {
    var s := NatToString(n);
    ParseNatToString(n);
    if |s| < 2 { ParseNatLeadingZero(s); }
    if n >= 10 && n < 100 {
      assert NatToString(n / 10) == [DigitChar(n / 10)];
    }
  }

  // ---------------------------------------------------------------- clock strings

  /** The ':'-separated fields of a string. */
  function SplitColon(s: string): (r: seq<string>)
    ensures |r| > 0
  {
    if ':' in s then
      var i := FirstColon(s);
      [s[..i]] + SplitColon(s[i + 1..])
    else [s]
  }

  function FirstColon(s: string): (i: nat)
    requires ':' in s
    ensures i < |s| && s[i] == ':' && ':' !in s[..i]
  {
    if s[0] == ':' then 0 else
      assert s == [s[0]] + s[1..];
      var j := FirstColon(s[1..]);
      assert s[..j + 1] == [s[0]] + s[1..][..j];
      j + 1
  }

  lemma SplitColonJoin(a: string, b: string)
    requires AllDigits(a)
    ensures SplitColon(a + ":" + b) == [a] + SplitColon(b)
  {
    var s := a + ":" + b;
    assert s[|a|] == ':';
    assert forall k :: 0 <= k < |a| ==> s[k] == a[k] && IsDigit(a[k]);
    var i := FirstColon(s);
    assert i == |a|;
    assert s[..i] == a;
    assert s[i + 1..] == b;
  }

  lemma SplitColonDigits(a: string)
    requires AllDigits(a)
    ensures SplitColon(a) == [a]
  {
    assert forall k :: 0 <= k < |a| ==> a[k] != ':';
  }

  /** The number of seconds a "m:ss" or "h:mm:ss" string stands for; None when the
      string has a different shape. */
  function ParseClock(s: string): Option<nat> {
    ClockFields(SplitColon(s))
  }

  function ClockFields(f: seq<string>): Option<nat> {
    if |f| == 2 && AllDigits(f[0]) && AllDigits(f[1]) then
      Some(ParseNat(f[0]) * 60 + ParseNat(f[1]))
    else if |f| == 3 && AllDigits(f[0]) && AllDigits(f[1]) && AllDigits(f[2]) then
      Some(ParseNat(f[0]) * 3600 + ParseNat(f[1]) * 60 + ParseNat(f[2]))
    else None
  }

  lemma ParseTwoFields(a: string, b: string)
    requires AllDigits(a) && AllDigits(b)
    ensures ParseClock(a + ":" + b) == Some(ParseNat(a) * 60 + ParseNat(b))
    ensures SplitColon(a + ":" + b) == [a, b]
  {
    SplitColonJoin(a, b);
    SplitColonDigits(b);
    assert SplitColon(a + ":" + b) == [a, b];
    ClockFieldsTwo(a, b);
  }

  lemma ClockFieldsTwo(a: string, b: string)
    requires AllDigits(a) && AllDigits(b)
    ensures ClockFields([a, b]) == Some(ParseNat(a) * 60 + ParseNat(b))
  {
    assert [a, b][0] == a;
  }

  lemma ClockFieldsThree(a: string, b: string, c: string)
    requires AllDigits(a) && AllDigits(b) && AllDigits(c)
    ensures ClockFields([a, b, c]) == Some(ParseNat(a) * 3600 + ParseNat(b) * 60 + ParseNat(c))
  {
    assert [a, b, c][0] == a;
  }

  lemma ParseThreeFields(a: string, b: string, c: string)
    requires AllDigits(a) && AllDigits(b) && AllDigits(c)
    ensures ParseClock(a + ":" + b + ":" + c) == Some(ParseNat(a) * 3600 + ParseNat(b) * 60 + ParseNat(c))
    ensures SplitColon(a + ":" + b + ":" + c) == [a, b, c]
  {
    var t := a + ":" + b + ":" + c;
    assert t == a + ":" + (b + ":" + c);
    SplitColonJoin(a, b + ":" + c);
    SplitColonJoin(b, c);
    SplitColonDigits(c);
    assert SplitColon(t) == [a, b, c];
    ClockFieldsThree(a, b, c);
  }

  /** Three digit fields worth h, m and s read back as h * 3600 + m * 60 + s. */
  lemma ReadThreeFields(a: string, b: string, c: string, h: nat, m: nat, s: nat)
    requires AllDigits(a) && AllDigits(b) && AllDigits(c)
    requires ParseNat(a) == h && ParseNat(b) == m && ParseNat(c) == s
    ensures ParseClock(a + ":" + b + ":" + c) == Some(h * 3600 + m * 60 + s)
    ensures SplitColon(a + ":" + b + ":" + c) == [a, b, c]
  {
    ParseThreeFields(a, b, c);
  }

  /** "m:ss": minutes as they are, seconds padded to two digits. */
  function MinSecText(m: nat, s: nat): string {
    NatToString(m) + ":" + PadStart2(NatToString(s))
  }

  /** "h:mm:ss": hours as they are, minutes and seconds padded to two digits. */
  function HourMinSecText(h: nat, m: nat, s: nat): string {
    NatToString(h) + ":" + PadStart2(NatToString(m)) + ":" + PadStart2(NatToString(s))
  }

  /** Reading "m:ss" back gives m * 60 + ss; its fields are the two numbers. */
  lemma ParseMinSec(m: nat, s: nat)
    ensures ParseClock(MinSecText(m, s)) == Some(m * 60 + s)
    ensures SplitColon(MinSecText(m, s)) == [NatToString(m), PadStart2(NatToString(s))]
    ensures ParseNat(PadStart2(NatToString(s))) == s
  {
    PadStart2Value(s);
    ParseNatToString(m);
    ParseTwoFields(NatToString(m), PadStart2(NatToString(s)));
  }

  /** Reading "h:mm:ss" back gives h * 3600 + mm * 60 + ss, from three fields. */
  lemma ParseHourMinSec(h: nat, m: nat, s: nat)
    ensures ParseClock(HourMinSecText(h, m, s)) == Some(h * 3600 + m * 60 + s)
    ensures SplitColon(HourMinSecText(h, m, s))
         == [NatToString(h), PadStart2(NatToString(m)), PadStart2(NatToString(s))]
  {
    PadStart2Value(m);
    PadStart2Value(s);
    ParseNatToString(h);
    ReadThreeFields(NatToString(h), PadStart2(NatToString(m)), PadStart2(NatToString(s)), h, m, s);
  }

  /** A clock field after the first: two digits worth less than 60. */
  predicate Sexagesimal(f: string) {
    |f| == 2 && AllDigits(f) && ParseNat(f) < 60
  }

  /** A counter below 60, padded, is such a field. */
  lemma PaddedField(n: nat)
    requires n < 60
    ensures Sexagesimal(PadStart2(NatToString(n)))
  {
    PadStart2Value(n);
  }

  /** "m:ss" for a seconds counter below 60: two fields, the second one
      sexagesimal. */
  lemma MinSecFields(m: nat, s: nat)
    requires s < 60
    ensures ParseClock(MinSecText(m, s)) == Some(m * 60 + s)
    ensures |SplitColon(MinSecText(m, s))| == 2
    ensures SplitColon(MinSecText(m, s))[0] == NatToString(m)
    ensures forall i :: 1 <= i < |SplitColon(MinSecText(m, s))| ==> Sexagesimal(SplitColon(MinSecText(m, s))[i])
  {
    ParseMinSec(m, s);
    PaddedField(s);
  }

  /** "h:mm:ss" for counters below 60: three fields, the last two sexagesimal. */
  lemma HourMinSecFields(h: nat, m: nat, s: nat)
    requires m < 60 && s < 60
    ensures ParseClock(HourMinSecText(h, m, s)) == Some(h * 3600 + m * 60 + s)
    ensures |SplitColon(HourMinSecText(h, m, s))| == 3
    ensures SplitColon(HourMinSecText(h, m, s))[0] == NatToString(h)
    ensures forall i :: 1 <= i < |SplitColon(HourMinSecText(h, m, s))| ==>
      Sexagesimal(SplitColon(HourMinSecText(h, m, s))[i])
  {
    ParseHourMinSec(h, m, s);
    PaddedField(m);
    PaddedField(s);
  }
}

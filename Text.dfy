/** JavaScript string and value behaviour that the feedback service relies on,
    restricted to what the classification rules use: optional values and their
    truthiness, ASCII case mapping, `trim`, `includes`, `join`, and the decimal
    rendering of integers used by template literals. */
module Text {

  datatype Option<+T> = None | Some(value: T)

  /** A JavaScript string value that may be `undefined`/`null`: it is truthy when
      present and non-empty. */
  predicate Truthy(s: Option<string>) {
    s.Some? && s.value != ""
  }

  /** `a || b || fallback` over optional strings. */
  function FirstTruthy(a: Option<string>, b: Option<string>, fallback: string): (r: string)
    ensures Truthy(a) ==> r == a.value
    ensures !Truthy(a) && Truthy(b) ==> r == b.value
    ensures !Truthy(a) && !Truthy(b) ==> r == fallback
  {
    if Truthy(a) then a.value else if Truthy(b) then b.value else fallback
  }

  /** `a || b || fallback` over optional numbers: 0 (and a missing value) is falsy. */
  function FirstNonZero(a: Option<real>, b: Option<real>, fallback: real): (r: real)
    ensures fallback != 0.0 ==> r != 0.0
    ensures a.Some? && a.value != 0.0 ==> r == a.value
    ensures (a.None? || a.value == 0.0) && b.Some? && b.value != 0.0 ==> r == b.value
    ensures (a.None? || a.value == 0.0) && (b.None? || b.value == 0.0) ==> r == fallback
  {
    if a.Some? && a.value != 0.0 then a.value
    else if b.Some? && b.value != 0.0 then b.value
    else fallback
  }

  // ---------------------------------------------------------------------------
  // Case mapping (ASCII letters only)

  function LowerChar(c: char): char {
    if 'A' <= c <= 'Z' then (c as int + 32) as char else c
  }

  function UpperChar(c: char): char {
    if 'a' <= c <= 'z' then (c as int - 32) as char else c
  }

  /** `s.toLowerCase()`, for ASCII letters. */
  function ToLower(s: string): (r: string)
    ensures |r| == |s|
    ensures forall i :: 0 <= i < |s| ==> r[i] == LowerChar(s[i])
  {
    seq(|s|, i requires 0 <= i < |s| => LowerChar(s[i]))
  }

  /** `s.toUpperCase()`, for ASCII letters. */
  function ToUpper(s: string): (r: string)
    ensures |r| == |s|
    ensures forall i :: 0 <= i < |s| ==> r[i] == UpperChar(s[i])
  {
    seq(|s|, i requires 0 <= i < |s| => UpperChar(s[i]))
  }

  predicate IsLowerWord(w: string) {
    forall i :: 0 <= i < |w| ==> 'a' <= w[i] <= 'z'
  }

  // ---------------------------------------------------------------------------
  // Substring search: `s.includes(w)`

  predicate OccursAt(s: string, w: string, i: int) {
    0 <= i && i + |w| <= |s| && s[i..i + |w|] == w
  }

  predicate Contains(s: string, w: string) {
    exists i | 0 <= i <= |s| - |w| :: OccursAt(s, w, i)
  }

  /** Lower-casing keeps every occurrence of a lower-case word: content that
      contains "excellent" still contains it after `toLowerCase()`. */
  lemma ContainsSurvivesLower(s: string, w: string)
    requires IsLowerWord(w)
    requires Contains(s, w)
    ensures Contains(ToLower(s), w)
  {
    var i :| 0 <= i <= |s| - |w| && OccursAt(s, w, i);
    var t := ToLower(s);
    forall k | 0 <= k < |w| ensures t[i + k] == w[k] {
      assert s[i + k] == s[i..i + |w|][k];
    }
    assert t[i..i + |w|] == w;
    assert OccursAt(t, w, i);
  }

  // ---------------------------------------------------------------------------
  // `String.prototype.trim`

  /** The characters JavaScript's `trim` removes: WhiteSpace and LineTerminator. */
  predicate IsJsWhitespace(c: char) {
    || c == ' ' || c == '\t' || c == '\n' || c == '\r'
    || c == '\U{000B}' || c == '\U{000C}' || c == '\U{00A0}' || c == '\U{1680}'
    || ('\U{2000}' <= c <= '\U{200A}')
    || c == '\U{2028}' || c == '\U{2029}' || c == '\U{202F}' || c == '\U{205F}'
    || c == '\U{3000}' || c == '\U{FEFF}'
  }

  predicate HasNoWhitespace(w: string) {
    forall i :: 0 <= i < |w| ==> !IsJsWhitespace(w[i])
  }

  function TrimStart(s: string): string {
    if |s| > 0 && IsJsWhitespace(s[0]) then TrimStart(s[1..]) else s
  }

  function TrimEnd(s: string): string {
    if |s| > 0 && IsJsWhitespace(s[|s| - 1]) then TrimEnd(s[..|s| - 1]) else s
  }

  function Trim(s: string): string {
    TrimEnd(TrimStart(s))
  }

  lemma {:induction false} TrimStartKeepsWords(s: string, w: string)
    requires |w| > 0 && HasNoWhitespace(w)
    ensures Contains(TrimStart(s), w) <==> Contains(s, w)
  {
    if |s| > 0 && IsJsWhitespace(s[0]) {
      var t := s[1..];
      TrimStartKeepsWords(t, w);
      if Contains(t, w) {
        var i :| 0 <= i <= |t| - |w| && OccursAt(t, w, i);
        assert s[i + 1..i + 1 + |w|] == t[i..i + |w|];
        assert OccursAt(s, w, i + 1);
      }
      if Contains(s, w) {
        var i :| 0 <= i <= |s| - |w| && OccursAt(s, w, i);
        assert i > 0;
        assert t[i - 1..i - 1 + |w|] == s[i..i + |w|];
        assert OccursAt(t, w, i - 1);
      }
    }
  }

  lemma {:induction false} TrimEndKeepsWords(s: string, w: string)
    requires |w| > 0 && HasNoWhitespace(w)
    ensures Contains(TrimEnd(s), w) <==> Contains(s, w)
  {
    if |s| > 0 && IsJsWhitespace(s[|s| - 1]) {
      var t := s[..|s| - 1];
      TrimEndKeepsWords(t, w);
      if Contains(t, w) {
        var i :| 0 <= i <= |t| - |w| && OccursAt(t, w, i);
        assert s[i..i + |w|] == t[i..i + |w|];
        assert OccursAt(s, w, i);
      }
      if Contains(s, w) {
        var i :| 0 <= i <= |s| - |w| && OccursAt(s, w, i);
        assert s[i + |w| - 1] == s[i..i + |w|][|w| - 1];
        assert i + |w| < |s|;
        assert t[i..i + |w|] == s[i..i + |w|];
        assert OccursAt(t, w, i);
      }
    }
  }

  /** Trimming never changes whether a non-empty word without whitespace occurs. */
  lemma TrimKeepsWords(s: string, w: string)
    requires |w| > 0 && HasNoWhitespace(w)
    ensures Contains(Trim(s), w) <==> Contains(s, w)
  {
    TrimStartKeepsWords(s, w);
    TrimEndKeepsWords(TrimStart(s), w);
  }

  // ---------------------------------------------------------------------------
  // `Array.prototype.join` and a matching split

  function Join(parts: seq<string>, sep: string): string {
    if |parts| == 0 then ""
    else if |parts| == 1 then parts[0]
    else parts[0] + sep + Join(parts[1..], sep)
  }

  /** The index of the first `c` in `s`, or -1. */
  function IndexOf(s: string, c: char): (r: int)
    ensures -1 <= r < |s|
    ensures r >= 0 ==> s[r] == c && c !in s[..r]
    ensures r < 0 ==> c !in s
  {
    if |s| == 0 then -1
    else if s[0] == c then 0
    else
      var k := IndexOf(s[1..], c);
      assert k >= 0 ==> s[..k + 1] == [s[0]] + s[1..][..k];
      if k < 0 then -1 else k + 1
  }

  /** Reads back a list written by `Join(parts, ", ")`: cuts at each comma and
      drops the one character after it. */
  function SplitCommaSpace(s: string): seq<string>
    decreases |s|
  {
    var i := IndexOf(s, ',');
    if i < 0 then [s]
    else [s[..i]] + SplitCommaSpace(if i + 2 <= |s| then s[i + 2..] else "")
  }

  lemma {:induction false} SplitJoin(parts: seq<string>)
    requires |parts| > 0
    requires forall k :: 0 <= k < |parts| ==> ',' !in parts[k]
    ensures SplitCommaSpace(Join(parts, ", ")) == parts
  {
    if |parts| == 1 {
      assert IndexOf(parts[0], ',') < 0;
    } else {
      var s := Join(parts, ", ");
      var p := parts[0];
      var rest := Join(parts[1..], ", ");
      assert s == p + ", " + rest;
      assert s[|p|] == ',';
      assert s[..|p|] == p;
      var i := IndexOf(s, ',');
      assert forall j :: 0 <= j < |p| ==> s[j] == p[j];
      assert i == |p|;
      assert s[i + 2..] == rest;
      SplitJoin(parts[1..]);
      assert parts == [p] + parts[1..];
    }
  }

  // ---------------------------------------------------------------------------
  // Counting a character

  function CountChar(s: string, c: char): nat {
    if |s| == 0 then 0 else (if s[0] == c then 1 else 0) + CountChar(s[1..], c)
  }

  lemma {:induction false} CountCharAppend(a: string, b: string, c: char)
    ensures CountChar(a + b, c) == CountChar(a, c) + CountChar(b, c)
  {
    if |a| > 0 {
      assert (a + b)[1..] == a[1..] + b;
      CountCharAppend(a[1..], b, c);
    } else {
      assert a + b == b;
    }
  }

  // ---------------------------------------------------------------------------
  // Decimal rendering of integers (`${n}` in a template literal) and parsing

  predicate IsDigit(c: char) {
    '0' <= c <= '9'
  }

  predicate AllDigits(s: string) {
    forall i :: 0 <= i < |s| ==> IsDigit(s[i])
  }

  function DigitChar(d: nat): (c: char)
    requires d < 10
    ensures IsDigit(c)
  {
    ('0' as int + d) as char
  }

  function DigitValue(c: char): nat
    requires IsDigit(c)
  {
    c as int - '0' as int
  }

  function NatToString(n: nat): (s: string)
    ensures |s| > 0 && AllDigits(s)
    decreases n
  {
    if n < 10 then [DigitChar(n)] else NatToString(n / 10) + [DigitChar(n % 10)]
  }

  /** The decimal text JavaScript prints for an integer. */
  function IntToString(i: int): string {
    if i < 0 then "-" + NatToString(-i) else NatToString(i)
  }

  /** The value of a non-empty run of decimal digits. */
  function ParseDigits(s: string): nat
    requires |s| > 0 && AllDigits(s)
    decreases |s|
  {
    if |s| == 1 then DigitValue(s[0])
    else 10 * ParseDigits(s[..|s| - 1]) + DigitValue(s[|s| - 1])
  }

  lemma {:induction false} ParseNatToString(n: nat)
    ensures ParseDigits(NatToString(n)) == n
    decreases n
  {
    if n >= 10 {
      var s := NatToString(n);
      assert s[..|s| - 1] == NatToString(n / 10);
      ParseNatToString(n / 10);
    }
  }

  /** Different integers print differently, so `feedback-${id}` names one row. */
  lemma IntToStringInjective(a: int, b: int)
    requires IntToString(a) == IntToString(b)
    ensures a == b
  {
    assert IntToString(a)[0] == '-' <==> a < 0;
    assert IntToString(b)[0] == '-' <==> b < 0;
    if a < 0 {
      assert NatToString(-a) == IntToString(a)[1..] == NatToString(-b);
      ParseNatToString(-a);
      ParseNatToString(-b);
    } else {
      ParseNatToString(a);
      ParseNatToString(b);
    }
  }

  /** The length of the run of digits at the start of `s`. */
  function LeadingDigits(s: string): (n: nat)
    ensures n <= |s| && AllDigits(s[..n])
    ensures n < |s| ==> !IsDigit(s[n])
  {
    if |s| > 0 && IsDigit(s[0]) then
      var k := LeadingDigits(s[1..]);
      assert s[..k + 1] == [s[0]] + s[1..][..k];
      k + 1
    else 0
  }

  /** `parseInt(s)` for text that starts with an optional minus sign and digits;
      `None` stands for `NaN` (no digit where the number should start). */
  function ParseInt(s: string): Option<int> {
    if |s| > 0 && s[0] == '-' then
      var k := LeadingDigits(s[1..]);
      if k == 0 then None else Some(0 - ParseDigits(s[1..][..k]))
    else
      var k := LeadingDigits(s);
      if k == 0 then None else Some(ParseDigits(s[..k]))
  }

  /** `parseInt` reads back every integer that `${n}` prints. */
  lemma ParseIntToString(i: int)
    ensures ParseInt(IntToString(i)) == Some(i)
  {
    if i < 0 {
      var s := IntToString(i);
      assert s[1..] == NatToString(-i);
      assert s[1..][..|s[1..]|] == s[1..];
      ParseNatToString(-i);
    } else {
      var s := NatToString(i);
      assert s[..|s|] == s;
      ParseNatToString(i);
    }
  }
}

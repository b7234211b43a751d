/** The handful of Python `str` operations the scrapers rely on, over `seq<char>`:
    `strip()`, `lower()`, `title()` and the substring test `sub in s`.
 */
module Text {

  /** Python's `str.isspace()` for one character: the characters `strip()` with no
      argument removes (ASCII whitespace, the four information separators, NEL,
      NBSP and the Unicode space separators). */
  predicate IsSpace(c: char) {
    || ('\t' <= c <= '\r')
    || ('\U{1C}' <= c <= '\U{1F}')
    || c == ' ' || c == '\U{85}' || c == '\U{A0}' || c == '\U{1680}'
    || ('\U{2000}' <= c <= '\U{200A}')
    || c == '\U{2028}' || c == '\U{2029}' || c == '\U{202F}' || c == '\U{205F}'
    || c == '\U{3000}'
  }

  predicate AllSpace(s: string) {
    forall k | 0 <= k < |s| :: IsSpace(s[k])
  }

  /** Number of leading whitespace characters of `s`. */
  function LeadingSpaces(s: string): (n: nat)
    ensures n <= |s|
    ensures AllSpace(s[..n])
    ensures n < |s| ==> !IsSpace(s[n])
  {
    if s == [] || !IsSpace(s[0]) then 0
    else
      var m := LeadingSpaces(s[1..]);
      assert s[1..][..m] == s[1..m + 1];
      1 + m
  }

  /** Number of trailing whitespace characters of `s`. */
  function TrailingSpaces(s: string): (n: nat)
    ensures n <= |s|
    ensures AllSpace(s[|s| - n..])
    ensures n < |s| ==> !IsSpace(s[|s| - n - 1])
  {
    if s == [] || !IsSpace(s[|s| - 1]) then 0
    else
      var m := TrailingSpaces(s[..|s| - 1]);
      assert s[..|s| - 1][|s| - 1 - m..] == s[|s| - 1 - m..|s| - 1];
      1 + m
  }

  /** Python's `s.strip()`: `s` without its leading and trailing whitespace. */
  function Strip(s: string): (r: string)
    ensures |r| <= |s|
    ensures r == [] || (!IsSpace(r[0]) && !IsSpace(r[|r| - 1]))
    ensures r == [] <==> AllSpace(s)
    ensures var k := LeadingSpaces(s);
            k + |r| <= |s| && AllSpace(s[..k]) && s[k..k + |r|] == r && AllSpace(s[k + |r|..])
  {
    var t := s[LeadingSpaces(s)..];
    var r := t[..|t| - TrailingSpaces(t)];
    assert AllSpace(s) ==> LeadingSpaces(s) == |s|;
    r
  }

  /** A string with no whitespace at either end is left alone by `strip()`. */
  lemma StripTrimmed(s: string)
    requires s == [] || (!IsSpace(s[0]) && !IsSpace(s[|s| - 1]))
    ensures Strip(s) == s
  {
    if s != [] {
      assert LeadingSpaces(s) == 0;
      assert TrailingSpaces(s) == 0;
    }
  }

  /** `strip()` is idempotent. */
  lemma StripIdempotent(s: string)
    ensures Strip(Strip(s)) == Strip(s)
  {
    StripTrimmed(Strip(s));
  }

  predicate IsAsciiUpper(c: char) { 'A' <= c <= 'Z' }

  predicate IsAsciiLower(c: char) { 'a' <= c <= 'z' }

  predicate IsAsciiLetter(c: char) { IsAsciiUpper(c) || IsAsciiLower(c) }

  function ToAsciiLower(c: char): (r: char)
    ensures !IsAsciiUpper(r)
    ensures IsAsciiLetter(c) <==> IsAsciiLower(r)
    ensures !IsAsciiLetter(c) ==> r == c
  {
    if IsAsciiUpper(c) then (c as int + 32) as char else c
  }

  function ToAsciiUpper(c: char): (r: char)
    ensures !IsAsciiLower(r)
    ensures IsAsciiLetter(c) <==> IsAsciiUpper(r)
    ensures !IsAsciiLetter(c) ==> r == c
  {
    if IsAsciiLower(c) then (c as int - 32) as char else c
  }

  /** Python's `str.lower()` of one character, as far as ASCII is concerned: ASCII
      capitals, and the only two other characters whose lower case contains ASCII,
      U+0130 (lower case "i" followed by U+0307) and the Kelvin sign U+212A ("k").
      Every other character is kept; its real lower case has no ASCII in it. */
  function LowerChar(c: char): string {
    if IsAsciiUpper(c) then [ToAsciiLower(c)]
    else if c == '\U{130}' then "i\U{307}"
    else if c == '\U{212A}' then "k"
    else [c]
  }

  /** Python's `s.lower()`, character by character. */
  function Lower(s: string): (r: string)
    ensures |r| >= |s|
    ensures forall k | 0 <= k < |r| :: !IsAsciiUpper(r[k])
    ensures (forall k | 0 <= k < |s| :: s[k] < '\U{80}') ==>
              |r| == |s| && forall k | 0 <= k < |s| :: r[k] == ToAsciiLower(s[k])
  {
    if s == [] then []
    else
      var tail := Lower(s[1..]);
      assert forall k | 1 <= k < |s| :: s[1..][k - 1] == s[k];
      LowerChar(s[0]) + tail
  }

  /** Python's `str.title()` over ASCII letters, where `previousCased` says whether the
      character before `s` was a letter: a letter is upper-cased at the start of a
      word and lower-cased inside one; everything else is kept. */
  function TitleFrom(s: string, previousCased: bool): (r: string)
    ensures |r| == |s|
    ensures forall k | 0 <= k < |s| ::
              var afterLetter := if k == 0 then previousCased else IsAsciiLetter(s[k - 1]);
              r[k] == (if afterLetter then ToAsciiLower(s[k]) else ToAsciiUpper(s[k]))
    decreases |s|
  {
    if s == [] then []
    else
      var c := if previousCased then ToAsciiLower(s[0]) else ToAsciiUpper(s[0]);
      var tail := TitleFrom(s[1..], IsAsciiLetter(s[0]));
      assert forall k | 1 <= k < |s| :: s[1..][k - 1] == s[k];
      [c] + tail
  }

  /** Python's `s.title()`, over ASCII letters. */
  function Title(s: string): (r: string)
    ensures |r| == |s|
    ensures forall k | 0 <= k < |s| && !IsAsciiLetter(s[k]) :: r[k] == s[k]
    ensures forall k | 0 <= k < |s| && IsAsciiLetter(s[k]) ::
              IsAsciiUpper(r[k]) <==> (k == 0 || !IsAsciiLetter(s[k - 1]))
    ensures forall k | 0 <= k < |s| :: IsAsciiLetter(r[k]) <==> IsAsciiLetter(s[k])
    ensures forall k | 0 <= k < |s| ::
              r[k] == (if k > 0 && IsAsciiLetter(s[k - 1]) then ToAsciiLower(s[k]) else ToAsciiUpper(s[k]))
  {
    var r := TitleFrom(s, false);
    forall k | 0 <= k < |s|
      ensures !IsAsciiLetter(s[k]) ==> r[k] == s[k]
      ensures IsAsciiLetter(r[k]) <==> IsAsciiLetter(s[k])
    {
      var afterLetter := if k == 0 then false else IsAsciiLetter(s[k - 1]);
      assert r[k] == (if afterLetter then ToAsciiLower(s[k]) else ToAsciiUpper(s[k]));
    }
    r
  }

  /** `lit` occurs in `s` at position `i`. */
  predicate OccursAt(s: string, i: nat, lit: string) {
    i + |lit| <= |s| && s[i..i + |lit|] == lit
  }

  /** Python's substring test `lit in s`. */
  predicate Contains(s: string, lit: string) {
    exists i | 0 <= i <= |s| :: OccursAt(s, i, lit)
  }
}

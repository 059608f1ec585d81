/** The JavaScript string built-ins the application relies on: `toLowerCase`,
    `trim`, `includes`, the `\w` character class of regular expressions and
    the decimal rendering of a number inside a template literal. */
module Text {

  /** The code points `String.prototype.trim` removes: WhiteSpace and
      LineTerminator of ECMA-262 (sections 12.2 and 12.3). */
  const WhitespaceChars: set<char> := {
    ' ', '\t', '\n', '\r', '\U{000B}', '\U{000C}', '\U{00A0}', '\U{1680}',
    '\U{2000}', '\U{2001}', '\U{2002}', '\U{2003}', '\U{2004}', '\U{2005}',
    '\U{2006}', '\U{2007}', '\U{2008}', '\U{2009}', '\U{200A}',
    '\U{2028}', '\U{2029}', '\U{202F}', '\U{205F}', '\U{3000}', '\U{FEFF}'
  }

  predicate IsWhitespace(c: char) {
    c in WhitespaceChars
  }

  predicate AllWhitespace(s: string) {
    forall i :: 0 <= i < |s| ==> IsWhitespace(s[i])
  }

  predicate IsUpper(c: char) { 'A' <= c <= 'Z' }

  predicate IsLower(c: char) { 'a' <= c <= 'z' }

  predicate IsDigit(c: char) { '0' <= c <= '9' }

  /** The regular-expression class `\w` (no `u` flag): `[A-Za-z0-9_]`. */
  predicate IsWordChar(c: char) {
    IsUpper(c) || IsLower(c) || IsDigit(c) || c == '_'
  }

  /** `toLowerCase` on one character, restricted to the ASCII letters. */
  function LowerChar(c: char): (r: char)
    ensures !IsUpper(r)
    ensures IsWhitespace(r) <==> IsWhitespace(c)
    ensures IsWordChar(r) <==> IsWordChar(c)
    ensures !IsUpper(c) ==> r == c
  {
    if IsUpper(c) then (c as int + 32) as char else c
  }

  /** `toUpperCase` on one character, restricted to the ASCII letters. */
  function UpperChar(c: char): (r: char)
    ensures !IsLower(r)
    ensures IsWordChar(r) <==> IsWordChar(c)
    ensures LowerChar(r) == LowerChar(c)
    ensures !IsLower(c) ==> r == c
  {
    if IsLower(c) then (c as int - 32) as char else c
  }

  /** `s.toLowerCase()`. */
  function Lower(s: string): (r: string)
    ensures |r| == |s|
    ensures forall i :: 0 <= i < |s| ==> r[i] == LowerChar(s[i])
  {
    seq(|s|, i requires 0 <= i < |s| => LowerChar(s[i]))
  }

  /** Lower-casing twice is lower-casing once. */
  lemma LowerIdempotent(s: string)
    ensures Lower(Lower(s)) == Lower(s)
  {
    assert forall i :: 0 <= i < |s| ==> LowerChar(LowerChar(s[i])) == LowerChar(s[i]);
  }

  /** The number of whitespace code points at the front of `s`. */
  function LeadingWhitespace(s: string): (k: nat)
    ensures k <= |s|
    ensures AllWhitespace(s[..k])
    ensures k < |s| ==> !IsWhitespace(s[k])
  {
    if |s| == 0 || !IsWhitespace(s[0]) then 0
    else
      var k' := LeadingWhitespace(s[1..]);
      assert s[..k' + 1] == [s[0]] + s[1..][..k'];
      k' + 1
  }

  /** The number of whitespace code points at the back of `s`. */
  function TrailingWhitespace(s: string): (k: nat)
    ensures k <= |s|
    ensures AllWhitespace(s[|s| - k..])
    ensures k < |s| ==> !IsWhitespace(s[|s| - k - 1])
  {
    if |s| == 0 || !IsWhitespace(s[|s| - 1]) then 0
    else
      var init := s[..|s| - 1];
      var k' := TrailingWhitespace(init);
      assert s[|s| - (k' + 1)..] == init[|init| - k'..] + [s[|s| - 1]];
      k' + 1
  }

  /** `s.trim()`: the infix of `s` left after removing whitespace from both
      ends. The removed prefix and suffix are all whitespace and the result
      neither starts nor ends with whitespace. */
  function Trim(s: string): (r: string)
    ensures |r| <= |s|
    ensures r == [] <==> AllWhitespace(s)
    ensures r != [] ==> !IsWhitespace(r[0]) && !IsWhitespace(r[|r| - 1])
    ensures LeadingWhitespace(s) + |r| <= |s|
    ensures r == s[LeadingWhitespace(s)..LeadingWhitespace(s) + |r|]
    ensures AllWhitespace(s[..LeadingWhitespace(s)])
    ensures AllWhitespace(s[LeadingWhitespace(s) + |r|..])
  {
    var a := LeadingWhitespace(s);
    var rest := s[a..];
    var b := TrailingWhitespace(rest);
    var r := rest[..|rest| - b];
    assert s[a + |r|..] == rest[|rest| - b..];
    assert AllWhitespace(s) ==> a == |s|;
    assert r == [] ==> s == s[..a] + rest[|rest| - b..];
    r
  }

  /** JavaScript's truthiness test `!s.trim()`: nothing but whitespace. */
  predicate IsBlank(s: string) {
    Trim(s) == []
  }

  /** Lower-casing keeps every character's whitespace-ness, so it leaves
      the leading whitespace count alone. */
  lemma {:induction false} LeadingWhitespaceLower(s: string)
    ensures LeadingWhitespace(Lower(s)) == LeadingWhitespace(s)
    decreases |s|
  {
    if |s| > 0 && IsWhitespace(s[0]) {
      assert Lower(s)[1..] == Lower(s[1..]);
      LeadingWhitespaceLower(s[1..]);
    }
  }

  lemma {:induction false} TrailingWhitespaceLower(s: string)
    ensures TrailingWhitespace(Lower(s)) == TrailingWhitespace(s)
    decreases |s|
  {
    if |s| > 0 && IsWhitespace(s[|s| - 1]) {
      assert Lower(s)[..|s| - 1] == Lower(s[..|s| - 1]);
      TrailingWhitespaceLower(s[..|s| - 1]);
    }
  }

  /** `s.toLowerCase().trim()` and `s.trim().toLowerCase()` agree, so the
      gateway's and the search box's normalisations of a name coincide. */
  lemma TrimLowerCommute(s: string)
    ensures Trim(Lower(s)) == Lower(Trim(s))
  {
    LeadingWhitespaceLower(s);
    var a := LeadingWhitespace(s);
    var rest := s[a..];
    LowerSlice(s, a);
    TrailingWhitespaceLower(rest);
    var b := TrailingWhitespace(rest);
    LowerSlice(rest, |rest| - b);
  }

  /** Lower-casing commutes with dropping or taking a prefix. */
  lemma LowerSlice(s: string, i: int)
    requires 0 <= i <= |s|
    ensures Lower(s)[i..] == Lower(s[i..])
    ensures Lower(s)[..i] == Lower(s[..i])
  {
  }

  /** A non-empty word of lower-case letters is unchanged by trimming and
      by lower-casing. */
  lemma LowerWordUnchanged(s: string)
    requires s != []
    requires forall j :: 0 <= j < |s| ==> IsLower(s[j])
    ensures Trim(s) == s && Lower(s) == s
  {
    assert !IsWhitespace(s[0]);
    assert LeadingWhitespace(s) == 0;
    assert !IsWhitespace(s[|s| - 1]);
    assert TrailingWhitespace(s) == 0;
    assert s[0..|s|] == s;
  }

  /** Trimming a trimmed string changes nothing. */
  lemma TrimIdempotent(s: string)
    ensures Trim(Trim(s)) == Trim(s)
  {
    var t := Trim(s);
    assert LeadingWhitespace(t) == 0;
    assert t[0..] == t;
    assert TrailingWhitespace(t) == 0;
  }

  /** `s.includes(q)`: `q` occurs in `s` as a contiguous run. */
  predicate Contains(s: string, q: string) {
    exists i | 0 <= i <= |s| :: OccursAt(s, q, i)
  }

  /** `q` occurs in `s` starting at index `i`. */
  predicate OccursAt(s: string, q: string, i: nat)
    requires i <= |s|
  {
    q <= s[i..]
  }

  /** A string lacking one of `q`'s characters does not contain `q`. */
  lemma MissingCharNotContained(s: string, q: string, j: int)
    requires 0 <= j < |q|
    requires forall k :: 0 <= k < |s| ==> s[k] != q[j]
    ensures !Contains(s, q)
  {
    forall i | 0 <= i <= |s| ensures !OccursAt(s, q, i) {
      if j < |s| - i {
        assert s[i..][j] == s[i + j] != q[j];
      }
    }
  }

  function DigitChar(d: int): (c: char)
    requires 0 <= d < 10
    ensures IsDigit(c)
  {
    ('0' as int + d) as char
  }

  function DigitValue(c: char): (d: int)
    requires IsDigit(c)
    ensures 0 <= d < 10
    ensures DigitChar(d) == c
  {
    c as int - '0' as int
  }

  predicate AllDigits(s: string) {
    forall i :: 0 <= i < |s| ==> IsDigit(s[i])
  }

  /** The decimal rendering of a non-negative integer, without leading zeros. */
  function NatToDecimal(n: nat): (r: string)
    ensures |r| >= 1
    ensures AllDigits(r)
    ensures r[0] == '0' ==> n == 0
    decreases n
  {
    if n < 10 then [DigitChar(n)] else NatToDecimal(n / 10) + [DigitChar(n % 10)]
  }

  /** Reads a string of decimal digits back as a number. */
  function ParseDecimal(s: string): nat
    requires AllDigits(s)
  {
    if |s| == 0 then 0 else ParseDecimal(s[..|s| - 1]) * 10 + DigitValue(s[|s| - 1])
  }

  /** Rendering then reading back a number gives the number. */
  lemma {:induction false} ParseNatToDecimal(n: nat)
    ensures ParseDecimal(NatToDecimal(n)) == n
    decreases n
  {
    if n >= 10 {
      var r := NatToDecimal(n);
      assert r[..|r| - 1] == NatToDecimal(n / 10);
      ParseNatToDecimal(n / 10);
    }
  }

  /** `${n}` for an integer: a minus sign before the magnitude when negative. */
  function IntToDecimal(n: int): (r: string)
    ensures |r| >= 1
    ensures n >= 0 <==> IsDigit(r[0])
    ensures forall i :: 0 <= i < |r| ==> r[i] == '-' || IsDigit(r[i])
  {
    if n < 0 then "-" + NatToDecimal(-n) else NatToDecimal(n)
  }

  /** Different integers render differently. */
  lemma IntToDecimalInjective(a: int, b: int)
    requires IntToDecimal(a) == IntToDecimal(b)
    ensures a == b
  {
    if a >= 0 && b >= 0 {
      ParseNatToDecimal(a);
      ParseNatToDecimal(b);
    } else if a < 0 && b < 0 {
      assert NatToDecimal(-a) == IntToDecimal(a)[1..];
      assert NatToDecimal(-b) == IntToDecimal(b)[1..];
      ParseNatToDecimal(-a);
      ParseNatToDecimal(-b);
    }
  }
}

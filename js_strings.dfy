/** The parts of JavaScript's string semantics that the client relies on:
    `String.prototype.trim`, `toLowerCase`, `includes`, `Array.prototype.join`
    over strings, and the decimal text of an integer-valued number. */
module JsStrings {

  /** A WhiteSpace or LineTerminator code point of ECMAScript (sections 12.2
      and 12.3 of ECMA-262): exactly the characters `trim` strips. */
  predicate IsWhiteSpace(c: char) {
    || c == '\t' || c == '\U{B}' || c == '\U{C}' || c == ' ' || c == '\U{A0}' || c == '\U{FEFF}'
    || c == '\U{1680}' || ('\U{2000}' <= c <= '\U{200A}') || c == '\U{202F}' || c == '\U{205F}'
    || c == '\U{3000}'
    || c == '\n' || c == '\r' || c == '\U{2028}' || c == '\U{2029}'
  }

  /** Every character of `s` is white space (the empty string included). */
  predicate AllWhiteSpace(s: string) {
    forall i :: 0 <= i < |s| ==> IsWhiteSpace(s[i])
  }

  /** `needle` occurs in `hay` starting at index `i`. */
  predicate OccursAt(hay: string, needle: string, i: int) {
    0 <= i && i + |needle| <= |hay| && hay[i..i + |needle|] == needle
  }

  /** `s.trim()`: leading and trailing white space removed. The result
      neither starts nor ends with white space; TrimCutsWhiteSpace shows
      that only white space was cut, from the two ends. */
  function Trim(s: string): (r: string)
    ensures |r| <= |s|
    ensures r == [] || (!IsWhiteSpace(r[0]) && !IsWhiteSpace(r[|r| - 1]))
    decreases |s|
  {
    if s == [] then []
    else if IsWhiteSpace(s[0]) then Trim(s[1..])
    else if IsWhiteSpace(s[|s| - 1]) then Trim(s[..|s| - 1])
    else s
  }

  /** `r` sits in `s` at `i` with only white space before and after it. */
  predicate CutAt(s: string, r: string, i: int) {
    OccursAt(s, r, i) && AllWhiteSpace(s[..i]) && AllWhiteSpace(s[i + |r|..])
  }

  lemma CutAtFront(s: string, r: string, i: int)
    requires s != [] && IsWhiteSpace(s[0]) && CutAt(s[1..], r, i)
    ensures CutAt(s, r, i + 1)
  {
    var t := s[1..];
    assert s[i + 1..i + 1 + |r|] == t[i..i + |r|];
    assert s[i + 1 + |r|..] == t[i + |r|..];
    assert forall k :: 1 <= k < i + 1 ==> s[k] == t[..i][k - 1];
  }

  lemma CutAtBack(s: string, r: string, i: int)
    requires s != [] && IsWhiteSpace(s[|s| - 1]) && CutAt(s[..|s| - 1], r, i)
    ensures CutAt(s, r, i)
  {
    var t := s[..|s| - 1];
    assert s[i..i + |r|] == t[i..i + |r|];
    assert s[..i] == t[..i];
    assert forall k :: i + |r| <= k < |s| - 1 ==> s[k] == t[i + |r|..][k - i - |r|];
  }

  /** The trimmed string is a contiguous piece of `s`, and everything
      before and after it is white space. */
  lemma {:induction false} TrimCutsWhiteSpace(s: string)
    ensures exists i :: CutAt(s, Trim(s), i)
    decreases |s|
  {
    var r := Trim(s);
    if s == [] {
      assert CutAt(s, r, 0);
    } else if IsWhiteSpace(s[0]) {
      TrimCutsWhiteSpace(s[1..]);
      var i :| CutAt(s[1..], r, i);
      CutAtFront(s, r, i);
    } else if IsWhiteSpace(s[|s| - 1]) {
      TrimCutsWhiteSpace(s[..|s| - 1]);
      var i :| CutAt(s[..|s| - 1], r, i);
      CutAtBack(s, r, i);
    } else {
      assert CutAt(s, r, 0);
    }
  }

  /** `!s.trim()` in the source: the trimmed string is empty exactly when
      every character is white space. */
  lemma TrimEmptyIffAllWhiteSpace(s: string)
    ensures Trim(s) == "" <==> AllWhiteSpace(s)
  {
    TrimCutsWhiteSpace(s);
    var r := Trim(s);
    var i :| CutAt(s, r, i);
    if r == [] {
      assert s == s[..i] + s[i..];
    } else {
      assert s[i] == r[0];
    }
  }

  /** Trimming leaves an already trimmed string alone. */
  lemma TrimIdempotent(s: string)
    ensures Trim(Trim(s)) == Trim(s)
  {
  }

  /** `toLowerCase` on one character. Only the ASCII letters are mapped;
      the full Unicode case mapping is not part of this model. */
  function LowerChar(c: char): char {
    if 'A' <= c <= 'Z' then (c as int + 32) as char else c
  }

  /** `s.toLowerCase()`, character by character. */
  function ToLower(s: string): (r: string)
    ensures |r| == |s|
    ensures forall i :: 0 <= i < |s| ==> r[i] == LowerChar(s[i])
  {
    if s == [] then [] else [LowerChar(s[0])] + ToLower(s[1..])
  }

  /** A string without upper-case ASCII letters is its own lower case. */
  lemma ToLowerNoUpper(s: string)
    requires forall i :: 0 <= i < |s| ==> !('A' <= s[i] <= 'Z')
    ensures ToLower(s) == s
  {
  }

  /** `hay.includes(needle)`: a left-to-right search. */
  function Includes(hay: string, needle: string): bool
    decreases |hay|
  {
    if |needle| > |hay| then false
    else if hay[..|needle|] == needle then true
    else Includes(hay[1..], needle)
  }

  /** The search finds `needle` exactly when it occurs somewhere in `hay`;
      in particular the empty string occurs in every string. */
  lemma {:induction false} IncludesIffOccurs(hay: string, needle: string)
    ensures Includes(hay, needle) <==> exists i :: OccursAt(hay, needle, i)
    decreases |hay|
  {
    if |needle| > |hay| {
    } else if hay[..|needle|] == needle {
      assert OccursAt(hay, needle, 0);
    } else {
      IncludesIffOccurs(hay[1..], needle);
      forall i | OccursAt(hay[1..], needle, i)
        ensures OccursAt(hay, needle, i + 1)
      {
        assert hay[1..][i..i + |needle|] == hay[i + 1..i + 1 + |needle|];
      }
      forall i | OccursAt(hay, needle, i)
        ensures OccursAt(hay[1..], needle, i - 1)
      {
        assert hay[1..][i - 1..i - 1 + |needle|] == hay[i..i + |needle|];
      }
    }
  }

  /** `s.indexOf(c)` for one character, with |s| standing for -1 (not found). */
  function IndexOf(s: string, c: char): (i: nat)
    ensures i <= |s|
    ensures i < |s| ==> s[i] == c
    ensures forall j :: 0 <= j < i ==> s[j] != c
  {
    if s == [] || s[0] == c then 0 else 1 + IndexOf(s[1..], c)
  }

  /** `parts.join(sep)` for an array of strings. */
  function Join(parts: seq<string>, sep: string): (r: string)
    ensures parts == [] ==> r == ""
    ensures |parts| == 1 ==> r == parts[0]
  {
    if |parts| == 0 then ""
    else if |parts| == 1 then parts[0]
    else parts[0] + sep + Join(parts[1..], sep)
  }

  predicate IsDigit(c: char) {
    '0' <= c <= '9'
  }

  function DigitChar(d: nat): (c: char)
    requires d < 10
    ensures IsDigit(c)
  {
    (('0' as int) + d) as char
  }

  /** The decimal text of a natural number, as JavaScript's Number::toString
      gives it for integers below 10^21: digits only, no leading zero. */
  function NatToDecimal(n: nat): (r: string)
    ensures |r| >= 1
    ensures forall i :: 0 <= i < |r| ==> IsDigit(r[i])
    ensures r[0] == '0' ==> n == 0
    decreases n
  {
    if n < 10 then [DigitChar(n)] else NatToDecimal(n / 10) + [DigitChar(n % 10)]
  }

  function DigitValue(c: char): (d: nat)
    requires IsDigit(c)
    ensures d < 10
  {
    c as int - '0' as int
  }

  /** The number a string of decimal digits denotes: the partner of NatToDecimal. */
  function DecimalValue(s: string): nat
    requires forall i :: 0 <= i < |s| ==> IsDigit(s[i])
  {
    if s == [] then 0 else DecimalValue(s[..|s| - 1]) * 10 + DigitValue(s[|s| - 1])
  }

  /** Reading back the decimal text gives the number: distinct numbers have
      distinct decimal texts. */
  lemma {:induction false} DecimalRoundTrip(n: nat)
    ensures DecimalValue(NatToDecimal(n)) == n
    decreases n
  {
    if n >= 10 {
      DecimalRoundTrip(n / 10);
      var s := NatToDecimal(n);
      assert s[..|s| - 1] == NatToDecimal(n / 10);
    }
  }

  /** The text of an integer-valued number, `${i}` in a template literal,
      for magnitudes below 10^21; numbers are unbounded integers here, so
      JavaScript's exponent form and double rounding are not modelled. */
  function IntToString(i: int): (r: string)
    ensures |r| >= 1 && (r[0] == '-' <==> i < 0)
    ensures forall k :: (if i < 0 then 1 else 0) <= k < |r| ==> IsDigit(r[k])
  {
    if i < 0 then "-" + NatToDecimal(-i) else NatToDecimal(i)
  }
}

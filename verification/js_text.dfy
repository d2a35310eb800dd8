/**
 * The fragment of JavaScript's string and number semantics that the field
 * validator relies on: the characters `String.prototype.trim` strips, the
 * trim itself, the `length` of a string (counted in UTF-16 code units), and
 * the decimal text `Number.prototype.toString` produces for an integer.
 */
module JsText {

  /** White space and line terminators as ECMA-262 (2024 edition) defines
      them in sections 12.2 and 12.3: the characters that
      `String.prototype.trim` removes. */
  predicate IsWhitespace(c: char) {
    var k := c as int;
    || k == 0x0009 || k == 0x000B || k == 0x000C || k == 0x0020
    || k == 0x00A0 || k == 0xFEFF || k == 0x1680
    || (0x2000 <= k <= 0x200A) || k == 0x202F || k == 0x205F || k == 0x3000
    || k == 0x000A || k == 0x000D || k == 0x2028 || k == 0x2029
  }

  /** `s` holds at least one character that is not white space. */
  predicate HasContent(s: string) {
    exists i :: 0 <= i < |s| && !IsWhitespace(s[i])
  }

  /** Drops the leading white space of `s`: the result is the longest suffix
      of `s` that starts with a non-white-space character (or is empty). */
  function TrimStart(s: string): (r: string)
    ensures |r| <= |s| && r == s[|s| - |r|..]
    ensures forall k :: 0 <= k < |s| - |r| ==> IsWhitespace(s[k])
    ensures r == [] || !IsWhitespace(r[0])
  {
    if |s| > 0 && IsWhitespace(s[0]) then TrimStart(s[1..]) else s
  }

  /** Drops the trailing white space of `s`: the result is the longest prefix
      of `s` that ends with a non-white-space character (or is empty). */
  function TrimEnd(s: string): (r: string)
    ensures |r| <= |s| && r == s[..|r|]
    ensures forall k :: |r| <= k < |s| ==> IsWhitespace(s[k])
    ensures r == [] || !IsWhitespace(r[|r| - 1])
  {
    if |s| > 0 && IsWhitespace(s[|s| - 1]) then TrimEnd(s[..|s| - 1]) else s
  }

  /** `r` is the slice of `s` that starts at offset `i`, and everything of
      `s` outside that slice is white space. */
  predicate SliceInWhitespace(s: string, r: string, i: int) {
    && 0 <= i <= |s| - |r|
    && r == s[i..i + |r|]
    && (forall k :: 0 <= k < i ==> IsWhitespace(s[k]))
    && (forall k :: i + |r| <= k < |s| ==> IsWhitespace(s[k]))
  }

  /** `String.prototype.trim` (ECMA-262, 2024 edition, section 22.1.3.32).
      The result is a contiguous slice of `s` that neither starts nor ends
      with white space, and everything cut off around it is white space. */
  function Trim(s: string): (r: string)
    ensures exists i :: SliceInWhitespace(s, r, i)
    ensures r == [] || (!IsWhitespace(r[0]) && !IsWhitespace(r[|r| - 1]))
  {
    var t := TrimStart(s);
    var r := TrimEnd(t);
    assert SliceInWhitespace(s, r, |s| - |t|);
    r
  }

  /** Trimming leaves nothing exactly when the string has no content. */
  lemma TrimEmptyIffBlank(s: string)
    ensures Trim(s) == [] <==> !HasContent(s)
  {
    var r := Trim(s);
    var i :| SliceInWhitespace(s, r, i);
    if r != [] {
      assert s[i] == r[0];
    }
  }

  /** Trimming keeps every non-white-space character, so it never changes
      whether a string has content. */
  lemma TrimPreservesContent(s: string)
    ensures HasContent(Trim(s)) <==> HasContent(s)
  {
    TrimEmptyIffBlank(s);
    var r := Trim(s);
    if r != [] {
      assert !IsWhitespace(r[0]);
    }
  }

  /** Trimming is idempotent. */
  lemma TrimIdempotent(s: string)
    ensures Trim(Trim(s)) == Trim(s)
  {
    var r := Trim(s);
    if r != [] {
      assert !IsWhitespace(r[0]) && !IsWhitespace(r[|r| - 1]);
      assert TrimStart(r) == r;
      assert TrimEnd(r) == r;
    }
  }

  /** A string whose ends are not white space is its own trim. */
  lemma TrimFixesSolidEnds(s: string)
    requires s != [] && !IsWhitespace(s[0]) && !IsWhitespace(s[|s| - 1])
    ensures Trim(s) == s
  {
    assert TrimStart(s) == s;
    assert TrimEnd(s) == s;
  }

  /** The number of UTF-16 code units of `s`: the value of the JavaScript
      `length` property. A code point above U+FFFF takes a surrogate pair. */
  function Utf16Length(s: string): (n: nat)
    ensures |s| <= n <= 2 * |s|
    ensures n == 0 <==> s == []
  {
    if s == [] then 0
    else (if s[0] as int >= 0x10000 then 2 else 1) + Utf16Length(s[1..])
  }

  /** One character takes two code units above U+FFFF and one otherwise. */
  lemma Utf16LengthOfChar(c: char)
    ensures Utf16Length([c]) == if c as int >= 0x10000 then 2 else 1
  {
    assert [c][1..] == [];
  }

  /** The code units of a concatenation are those of its parts, so together
      with `Utf16LengthOfChar` the count is fixed character by character. */
  lemma {:induction false} Utf16LengthAppend(s: string, t: string)
    ensures Utf16Length(s + t) == Utf16Length(s) + Utf16Length(t)
  {
    if s != [] {
      assert (s + t)[1..] == s[1..] + t;
      Utf16LengthAppend(s[1..], t);
    } else {
      assert s + t == t;
    }
  }

  /** A string that stays inside the Basic Multilingual Plane has as many
      UTF-16 code units as characters. */
  lemma {:induction false} Utf16LengthOfBmp(s: string)
    requires forall k :: 0 <= k < |s| ==> s[k] as int < 0x10000
    ensures Utf16Length(s) == |s|
  {
    if s != [] {
      Utf16LengthOfBmp(s[1..]);
    }
  }

  /** `s` is a non-empty run of decimal digits. */
  predicate IsDigits(s: string) {
    |s| >= 1 && forall k :: 0 <= k < |s| ==> '0' <= s[k] <= '9'
  }

  /** The decimal text of a natural number, without leading zeros. */
  function Digits(n: nat): (r: string)
    ensures IsDigits(r)
    ensures r[0] == '0' ==> r == "0"
  {
    if n < 10 then ["0123456789"[n]]
    else Digits(n / 10) + ["0123456789"[n % 10]]
  }

  /** The number a run of decimal digits denotes. */
  function DecimalValue(s: string): nat
    requires forall k :: 0 <= k < |s| ==> '0' <= s[k] <= '9'
  {
    if s == [] then 0
    else 10 * DecimalValue(s[..|s| - 1]) + (s[|s| - 1] as int - '0' as int)
  }

  /** Reading back the decimal text of `n` gives `n`. */
  lemma {:induction false} DigitsRoundTrip(n: nat)
    ensures DecimalValue(Digits(n)) == n
  {
    var r := Digits(n);
    if n >= 10 {
      DigitsRoundTrip(n / 10);
      assert r[..|r| - 1] == Digits(n / 10);
    }
  }

  /** The decimal text of an integer: an optional minus sign followed by the
      exact digits of the magnitude. This is `Number.prototype.toString` for
      integral Numbers of magnitude up to 2^53; above that JavaScript pads the
      shortest round-tripping digits with zeros, and from 10^21 on it uses
      exponent form. Either way the text is never empty and never contains
      white space, which is all the validator depends on. */
  function NumberToString(n: int): (r: string)
    ensures |r| >= 1
    ensures forall k :: 0 <= k < |r| ==> !IsWhitespace(r[k])
    ensures r[0] == '-' <==> n < 0
  {
    if n < 0 then "-" + Digits(-n) else Digits(n)
  }

  /** `s` is the text of an integer: digits, optionally after a minus. */
  predicate IsIntegerText(s: string) {
    IsDigits(s) || (|s| >= 2 && s[0] == '-' && IsDigits(s[1..]))
  }

  /** The integer that integer text denotes. */
  function IntegerValue(s: string): int
    requires IsIntegerText(s)
  {
    if s[0] == '-' then
      var magnitude: int := DecimalValue(s[1..]);
      -magnitude
    else DecimalValue(s)
  }

  /** A digit run reads back as its decimal value. */
  lemma PositiveText(d: string)
    requires IsDigits(d)
    ensures IsIntegerText(d)
    ensures IntegerValue(d) == DecimalValue(d)
  {
    assert d[0] != '-';
  }

  /** A minus sign before a digit run is the text of the negated value. */
  lemma NegativeText(d: string)
    requires IsDigits(d)
    ensures IsIntegerText("-" + d)
    ensures IntegerValue("-" + d) + DecimalValue(d) == 0
  {
    var r := "-" + d;
    assert r[0] == '-';
    assert r[1..] == d;
  }

  /** The text of an integer reads back as that integer. */
  lemma NumberToStringRoundTrip(n: int)
    ensures IsIntegerText(NumberToString(n))
    ensures IntegerValue(NumberToString(n)) == n
  {
    var m: nat := if n < 0 then -n else n;
    var d := Digits(m);
    DigitsRoundTrip(m);
    if n < 0 {
      NegativeText(d);
    } else {
      PositiveText(d);
    }
  }

  /** The text of a number survives trimming whole and has content. */
  lemma NumberTextIsSolid(n: int)
    ensures Trim(NumberToString(n)) == NumberToString(n)
    ensures HasContent(NumberToString(n))
  {
    var r := NumberToString(n);
    TrimFixesSolidEnds(r);
    assert !IsWhitespace(r[0]);
  }
}

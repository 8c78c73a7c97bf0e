// The checks the checkout form runs on the customer's name and phone number.
module Validation {

  /** A character matched by `\s` in a JavaScript regular expression; the same
      set is what `String.prototype.trim` strips (white space and line
      terminators of ECMAScript). No letter or digit is white space. */
  predicate IsJsWhitespace(c: char)
    ensures IsJsWhitespace(c) ==> !IsAsciiLetter(c) && !IsAsciiDigit(c)
  {
    var n := c as int;
    n == 0x09 || n == 0x0A || n == 0x0B || n == 0x0C || n == 0x0D || n == 0x20
    || n == 0xA0 || n == 0x1680 || (0x2000 <= n <= 0x200A)
    || n == 0x2028 || n == 0x2029 || n == 0x202F || n == 0x205F
    || n == 0x3000 || n == 0xFEFF
  }

  predicate IsAsciiLetter(c: char) {
    ('a' <= c <= 'z') || ('A' <= c <= 'Z')
  }

  predicate IsAsciiDigit(c: char) {
    '0' <= c <= '9'
  }

  /** The character class `[a-zA-Z\s]`. */
  predicate IsNameChar(c: char) {
    IsAsciiLetter(c) || IsJsWhitespace(c)
  }

  /** Whether all of `s` matches `^[cls]+$`: one character of the class, then
      the rest of the string matching the same pattern or nothing. */
  function MatchesClassPlus(s: string, cls: char -> bool): (r: bool)
    ensures r <==> |s| > 0 && forall k :: 0 <= k < |s| ==> cls(s[k])
  {
    |s| > 0 && cls(s[0]) && (|s| == 1 || MatchesClassPlus(s[1..], cls))
  }

  /** How many white-space characters `s` starts with. */
  function LeadingSpace(s: string): (n: nat)
    ensures n <= |s|
    ensures forall k :: 0 <= k < n ==> IsJsWhitespace(s[k])
    ensures n < |s| ==> !IsJsWhitespace(s[n])
  {
    if s != [] && IsJsWhitespace(s[0]) then 1 + LeadingSpace(s[1..]) else 0
  }

  /** Where the white space `s` ends with begins. */
  function TrailingSpaceStart(s: string): (n: nat)
    ensures n <= |s|
    ensures forall k :: n <= k < |s| ==> IsJsWhitespace(s[k])
    ensures n > 0 ==> !IsJsWhitespace(s[n - 1])
  {
    if s != [] && IsJsWhitespace(s[|s| - 1]) then TrailingSpaceStart(s[..|s| - 1]) else |s|
  }

  /** `String.prototype.trim`: the leading white space goes, then the trailing
      white space of what is left. */
  function Trim(s: string): string {
    var i := LeadingSpace(s);
    s[i..i + TrailingSpaceStart(s[i..])]
  }

  /** Trimming keeps a middle slice of the string, starting where the leading
      white space ends, and the slice neither starts nor ends with white space. */
  lemma TrimIsInnerSlice(s: string)
    ensures var i, t := LeadingSpace(s), Trim(s);
      && i + |t| <= |s| && t == s[i..i + |t|]
      && (t != [] ==> !IsJsWhitespace(t[0]) && !IsJsWhitespace(t[|t| - 1]))
  {
    var i := LeadingSpace(s);
    var u := s[i..];
    var j := TrailingSpaceStart(u);
    var t := s[i..i + j];
    assert Trim(s) == t;
    if j > 0 {
      assert t[0] == u[0] && t[j - 1] == u[j - 1];
    }
  }

  /** Only white space lies before and after the slice trimming keeps. */
  lemma TrimDropsOnlyWhitespace(s: string)
    ensures var i, t := LeadingSpace(s), Trim(s);
      && (forall k :: 0 <= k < i ==> IsJsWhitespace(s[k]))
      && (forall k :: i + |t| <= k < |s| ==> IsJsWhitespace(s[k]))
  {
    var i := LeadingSpace(s);
    var u := s[i..];
    var j := TrailingSpaceStart(u);
    assert |Trim(s)| == j;
    forall k | i + j <= k < |s| ensures IsJsWhitespace(s[k]) {
      assert u[k - i] == s[k];
    }
  }

  /** Trimming leaves nothing exactly when the string is all white space. */
  lemma TrimEmptyIffBlank(s: string)
    ensures Trim(s) == [] <==> forall k :: 0 <= k < |s| ==> IsJsWhitespace(s[k])
  {
    TrimIsInnerSlice(s);
    TrimDropsOnlyWhitespace(s);
    if Trim(s) != [] {
      assert Trim(s)[0] == s[LeadingSpace(s)];
    }
  }

  /** The name check: `/^[a-zA-Z\s]+$/.test(name) && name.trim().length > 0`. */
  function ValidName(name: string): (r: bool)
    ensures r <==> |name| > 0
                   && (forall k :: 0 <= k < |name| ==> IsAsciiLetter(name[k]) || IsJsWhitespace(name[k]))
                   && (exists k :: 0 <= k < |name| && !IsJsWhitespace(name[k]))
  {
    TrimEmptyIffBlank(name);
    MatchesClassPlus(name, IsNameChar) && |Trim(name)| > 0
  }

  /** The phone check: `/^[0-9]+$/.test(phone) && phone.length > 0`. */
  function ValidPhone(phone: string): (r: bool)
    ensures r <==> |phone| > 0 && forall k :: 0 <= k < |phone| ==> IsAsciiDigit(phone[k])
  {
    MatchesClassPlus(phone, IsAsciiDigit) && |phone| > 0
  }

  /** A valid name is one of letters and white space holding at least one letter. */
  lemma ValidNameHasLetter(name: string)
    ensures ValidName(name) <==>
      (forall k :: 0 <= k < |name| ==> IsNameChar(name[k]))
      && (exists k :: 0 <= k < |name| && IsAsciiLetter(name[k]))
  {
    if exists k :: 0 <= k < |name| && IsAsciiLetter(name[k]) {
      var k :| 0 <= k < |name| && IsAsciiLetter(name[k]);
      assert !IsJsWhitespace(name[k]);
    }
  }
}

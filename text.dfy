/** `String.prototype.trim` as the JavaScript runtime defines it: it removes
    the longest prefix and the longest suffix made of white space and line
    terminators. The form uses it only to ask whether a field is blank. */
module Text {

  /** ECMAScript WhiteSpace and LineTerminator code points: TAB, LF, VT, FF,
      CR, SPACE, NO-BREAK SPACE, the other space separators of category Zs,
      LINE SEPARATOR, PARAGRAPH SEPARATOR and the byte order mark. */
  predicate IsWhitespace(c: char) {
    var n := c as int;
    (0x09 <= n <= 0x0D) || n == 0x20 || n == 0xA0 || n == 0x1680 ||
    (0x2000 <= n <= 0x200A) || n == 0x2028 || n == 0x2029 || n == 0x202F ||
    n == 0x205F || n == 0x3000 || n == 0xFEFF
  }

  predicate AllWhitespace(s: string) {
    forall i :: 0 <= i < |s| ==> IsWhitespace(s[i])
  }

  /** How many white-space characters `s` starts with. */
  function LeadingWhitespace(s: string): (n: nat)
    ensures n <= |s|
    ensures forall k :: 0 <= k < n ==> IsWhitespace(s[k])
    ensures n < |s| ==> !IsWhitespace(s[n])
  {
    if s != [] && IsWhitespace(s[0]) then
      var n := LeadingWhitespace(s[1..]);
      assert forall k :: 1 <= k < n + 1 ==> s[k] == s[1..][k - 1];
      n + 1
    else
      0
  }

  /** How many white-space characters `s` ends with. */
  function TrailingWhitespace(s: string): (n: nat)
    ensures n <= |s|
    ensures forall k :: |s| - n <= k < |s| ==> IsWhitespace(s[k])
    ensures n < |s| ==> !IsWhitespace(s[|s| - n - 1])
  {
    if s != [] && IsWhitespace(s[|s| - 1]) then
      var n := TrailingWhitespace(s[..|s| - 1]);
      assert forall k :: |s| - 1 - n <= k < |s| - 1 ==> s[k] == s[..|s| - 1][k];
      n + 1
    else
      0
  }

  /** `s.trim()`: the piece of `s` that starts after its leading white space,
      with everything after the piece white space too; the piece neither
      starts nor ends with white space, and it is empty exactly when `s` is
      made of white space only. */
  function Trim(s: string): (r: string)
    ensures |r| <= |s|
    ensures var i := LeadingWhitespace(s);
      i + |r| <= |s| && r == s[i..i + |r|] &&
      forall k :: 0 <= k < |s| && !(i <= k < i + |r|) ==> IsWhitespace(s[k])
    ensures r != [] ==> !IsWhitespace(r[0]) && !IsWhitespace(r[|r| - 1])
    ensures r == [] <==> AllWhitespace(s)
  {
    var i := LeadingWhitespace(s);
    var t := s[i..];
    var j := TrailingWhitespace(t);
    assert forall k :: i + |t| - j <= k < |s| ==> s[k] == t[k - i];
    t[..|t| - j]
  }

  /** JavaScript's `!s.trim()`: the trimmed string is the empty string. */
  predicate IsBlank(s: string): (blank: bool)
    ensures blank <==> AllWhitespace(s)
  {
    Trim(s) == []
  }
}

/** The part of JavaScript's string semantics that the task list relies on:
    `String.prototype.trim`, which removes leading and trailing white space
    and line terminators (the TrimString operation of ECMA-262). */
module JsText {

  /** The code points ECMAScript counts as WhiteSpace or LineTerminator:
      TAB, LF, VT, FF, CR, the byte order mark U+FEFF, the line and paragraph
      separators U+2028 and U+2029, and every space separator (category Zs). */
  predicate IsWhitespace(c: char) {
    c in {'\t', '\n', '\U{000B}', '\U{000C}', '\r', ' ', '\U{00A0}', '\U{1680}',
          '\U{2000}', '\U{2001}', '\U{2002}', '\U{2003}', '\U{2004}', '\U{2005}',
          '\U{2006}', '\U{2007}', '\U{2008}', '\U{2009}', '\U{200A}',
          '\U{2028}', '\U{2029}', '\U{202F}', '\U{205F}', '\U{3000}', '\U{FEFF}'}
  }

  /** A string made of white space only (the empty string included). */
  predicate IsBlank(s: string) {
    forall i :: 0 <= i < |s| ==> IsWhitespace(s[i])
  }

  /** The index of the first character at or after `i` that is not white
      space, or `|s|` when there is none. */
  function SkipBlanks(s: string, i: nat): (n: nat)
    requires i <= |s|
    ensures i <= n <= |s|
    ensures forall k :: i <= k < n ==> IsWhitespace(s[k])
    ensures n < |s| ==> !IsWhitespace(s[n])
    decreases |s| - i
  {
    if i == |s| || !IsWhitespace(s[i]) then i else SkipBlanks(s, i + 1)
  }

  /** The end of `s[lo..j]` once trailing white space is dropped: the
      smallest `e` such that everything from `e` up to `j` is white space. */
  function DropTrailingBlanks(s: string, lo: nat, j: nat): (e: nat)
    requires lo <= j <= |s|
    ensures lo <= e <= j
    ensures forall k :: e <= k < j ==> IsWhitespace(s[k])
    ensures e > lo ==> !IsWhitespace(s[e - 1])
    decreases j
  {
    if j == lo || !IsWhitespace(s[j - 1]) then j else DropTrailingBlanks(s, lo, j - 1)
  }

  /** `s.trim()`: `s` without its leading and trailing white space. It
      neither starts nor ends with white space, and it is empty exactly when
      `s` is blank. */
  function Trim(s: string): (r: string)
    ensures r != [] ==> !IsWhitespace(r[0]) && !IsWhitespace(r[|r| - 1])
    ensures r == [] <==> IsBlank(s)
  {
    var b := SkipBlanks(s, 0);
    var e := DropTrailingBlanks(s, b, |s|);
    s[b..e]
  }

  /** `s.trim()` is the piece of `s` after its leading white space; all that
      comes before it and after it is white space. */
  lemma TrimIsMiddle(s: string)
    ensures var b := SkipBlanks(s, 0);
      var r := Trim(s);
      b + |r| <= |s| && r == s[b..b + |r|] && IsBlank(s[..b]) && IsBlank(s[b + |r|..])
  {
    var b := SkipBlanks(s, 0);
    var e := DropTrailingBlanks(s, b, |s|);
    var tail := s[e..];
    forall k | 0 <= k < |tail|
      ensures IsWhitespace(tail[k])
    {
      assert tail[k] == s[e + k];
    }
  }
}

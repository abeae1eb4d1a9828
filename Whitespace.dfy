/** `String.prototype.trim` as the final step of `fetchLyrics` uses it
    (loafy.js, `lyrics.trim()`). */
module Whitespace {
  import opened Markup
  import opened Strings

  /** The characters `trim` removes: ECMAScript WhiteSpace (TAB, VT, FF,
      ZWNBSP and the Unicode 15 `Zs` category) and LineTerminator. */
  predicate IsTrimmable(c: char) {
    || c == '\t' || c == '\U{000B}' || c == '\U{000C}' || c == '\U{FEFF}'
    || c == ' ' || c == '\U{00A0}' || c == '\U{1680}' || ('\U{2000}' <= c <= '\U{200A}')
    || c == '\U{202F}' || c == '\U{205F}' || c == '\U{3000}'
    || IsLineTerminator(c)
  }

  predicate AllWhite(s: string) {
    forall k :: 0 <= k < |s| ==> IsTrimmable(s[k])
  }

  /** `s` has no whitespace at either end. */
  predicate IsTrimmed(s: string) {
    s == [] || (!IsTrimmable(s[0]) && !IsTrimmable(s[|s| - 1]))
  }

  /** Length of the longest all-whitespace prefix. */
  function LeadingWhite(s: string): (n: nat)
    ensures n <= |s| && AllWhite(s[..n])
    ensures n < |s| ==> !IsTrimmable(s[n])
  {
    if s != [] && IsTrimmable(s[0]) then
      var n := 1 + LeadingWhite(s[1..]);
      assert forall k :: 1 <= k < n ==> s[..n][k] == s[1..][..n - 1][k - 1];
      n
    else 0
  }

  /** Length of the longest all-whitespace suffix. */
  function TrailingWhite(s: string): (n: nat)
    ensures n <= |s| && AllWhite(s[|s| - n..])
    ensures n < |s| ==> !IsTrimmable(s[|s| - 1 - n])
  {
    if s != [] && IsTrimmable(s[|s| - 1]) then
      var init := s[..|s| - 1];
      var n := 1 + TrailingWhite(init);
      assert forall k :: |s| - n <= k < |s| - 1 ==> s[k] == init[k];
      n
    else 0
  }

  /** `s.trim()`: drop the leading whitespace, then the trailing. */
  function Trim(s: string): (r: string)
    ensures |r| <= |s| && IsTrimmed(r)
    ensures r == [] <==> AllWhite(s)
  {
    var t := s[LeadingWhite(s)..];
    t[..|t| - TrailingWhite(t)]
  }

  /** The trimmed text is a contiguous piece of the input, with only
      whitespace cut off before and after it; so everything between the
      first and the last non-whitespace character, blank lines included,
      is kept. */
  lemma TrimIsInfix(s: string)
    ensures IsInfixAt(Trim(s), s, LeadingWhite(s))
    ensures AllWhite(s[..LeadingWhite(s)])
    ensures AllWhite(s[LeadingWhite(s) + |Trim(s)|..])
  {
    var a := LeadingWhite(s);
    var t := s[a..];
    var r := Trim(s);
    assert r == t[..|r|];
    assert s[a + |r|..] == t[|r|..];
  }

  /** Trimming a tag-free text leaves it tag-free. */
  lemma TrimTagFree(s: string)
    requires TagFree(s)
    ensures TagFree(Trim(s))
  {
    TrimIsInfix(s);
    TagFreeInfix(Trim(s), s, LeadingWhite(s));
  }

  /** An independent characterisation: whenever `s` splits into whitespace,
      a piece with no whitespace at its ends, and whitespace, trimming
      returns exactly that piece. */
  lemma TrimUnique(p: string, m: string, q: string)
    requires AllWhite(p) && AllWhite(q) && IsTrimmed(m)
    ensures Trim(p + m + q) == m
  {
    var s := p + m + q;
    if m == [] {
      assert AllWhite(s) by {
        assert forall k :: 0 <= k < |s| ==> s[k] == if k < |p| then p[k] else q[k - |p|];
      }
    } else {
      var n := LeadingWhite(s);
      assert s[|p|] == m[0];
      assert n == |p|;
      var t := s[n..];
      assert t == m + q;
      var e := TrailingWhite(t);
      assert t[|t| - 1 - |q|] == m[|m| - 1];
      assert e == |q|;
      assert t[..|t| - e] == m;
    }
  }

  /** Trimming twice is the same as trimming once. */
  lemma TrimIdempotent(s: string)
    ensures Trim(Trim(s)) == Trim(s)
  {
  }
}

/**
 * The two string built-ins of JavaScript that the contact form relies on:
 * the white-space class `\s` of regular expressions and String.prototype.trim,
 * which strips exactly that class from both ends.
 */
module Text {

  /** JavaScript white space and line terminators (the members of `\s`). */
  predicate IsWhitespace(c: char) {
    || c == '\t' || c == '\n' || c == '\U{B}' || c == '\U{C}' || c == '\r' || c == ' '
    || c == '\U{A0}' || c == '\U{1680}' || ('\U{2000}' <= c <= '\U{200A}')
    || c == '\U{2028}' || c == '\U{2029}' || c == '\U{202F}' || c == '\U{205F}'
    || c == '\U{3000}' || c == '\U{FEFF}'
  }

  predicate NoWhitespace(s: string) {
    forall i | 0 <= i < |s| :: !IsWhitespace(s[i])
  }

  predicate AllWhitespace(s: string) {
    forall i | 0 <= i < |s| :: IsWhitespace(s[i])
  }

  /** The length of the white-space run that starts s. */
  function LeadingWhitespace(s: string): (n: nat)
    ensures n <= |s|
    ensures forall i | 0 <= i < n :: IsWhitespace(s[i])
    ensures n < |s| ==> !IsWhitespace(s[n])
  {
    if s != [] && IsWhitespace(s[0]) then 1 + LeadingWhitespace(s[1..]) else 0
  }

  /** The length of the white-space run that ends s. */
  function TrailingWhitespace(s: string): (n: nat)
    ensures n <= |s|
    ensures forall i | |s| - n <= i < |s| :: IsWhitespace(s[i])
    ensures n < |s| ==> !IsWhitespace(s[|s| - 1 - n])
  {
    if s != [] && IsWhitespace(s[|s| - 1]) then 1 + TrailingWhitespace(s[..|s| - 1]) else 0
  }

  /**
   * String.prototype.trim: the result is a contiguous window of s that holds
   * every non-white-space character of s and neither starts nor ends with
   * white space.
   */
  function Trim(s: string): (r: string)
    ensures LeadingWhitespace(s) + |r| <= |s|
    ensures r == s[LeadingWhitespace(s)..LeadingWhitespace(s) + |r|]
    ensures forall i | 0 <= i < |s| && !IsWhitespace(s[i]) ::
              LeadingWhitespace(s) <= i < LeadingWhitespace(s) + |r|
    ensures r != [] ==> !IsWhitespace(r[0]) && !IsWhitespace(r[|r| - 1])
  {
    var t := s[LeadingWhitespace(s)..];
    t[..|t| - TrailingWhitespace(t)]
  }

  /** trim() yields the empty string exactly when s is all white space. */
  lemma TrimEmptyIff(s: string)
    ensures Trim(s) == [] <==> AllWhitespace(s)
  {
    if Trim(s) != [] {
      var k := LeadingWhitespace(s);
      assert s[k] == Trim(s)[0];
    }
  }

  /** A value that neither starts nor ends with white space is left as it is. */
  lemma TrimUntrimmed(s: string)
    requires s != [] && !IsWhitespace(s[0]) && !IsWhitespace(s[|s| - 1])
    ensures Trim(s) == s
  {
    assert LeadingWhitespace(s) == 0;
  }

  /** Trimming twice is the same as trimming once. */
  lemma TrimIdempotent(s: string)
    ensures Trim(Trim(s)) == Trim(s)
  {
    var r := Trim(s);
    if r != [] {
      assert LeadingWhitespace(r) == 0;
      assert TrailingWhitespace(r) == 0;
    } else {
      assert Trim(r) == [];
    }
  }
}

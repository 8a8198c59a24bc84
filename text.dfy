/** String helpers of Go's standard library that the client relies on:
    prefix and suffix tests, `strings.TrimSpace` and `strings.EqualFold`. */
module Text {

  predicate HasPrefix(s: string, prefix: string) {
    |prefix| <= |s| && s[..|prefix|] == prefix
  }

  predicate HasSuffix(s: string, suffix: string) {
    |suffix| <= |s| && s[|s| - |suffix|..] == suffix
  }

  predicate IsDigit(c: char) {
    '0' <= c <= '9'
  }

  /** Go's `unicode.IsSpace`: the ASCII white space, U+0085, U+00A0 and the
      other code points with the Unicode White_Space property. */
  predicate IsSpace(c: char) {
    || c == ' ' || c == '\t' || c == '\n' || c == '\U{000B}' || c == '\U{000C}' || c == '\r'
    || c == '\U{0085}' || c == '\U{00A0}' || c == '\U{1680}'
    || ('\U{2000}' <= c <= '\U{200A}')
    || c == '\U{2028}' || c == '\U{2029}' || c == '\U{202F}' || c == '\U{205F}' || c == '\U{3000}'
  }

  predicate AllSpace(s: string) {
    forall i | 0 <= i < |s| :: IsSpace(s[i])
  }

  /** Neither end of `s` is white space. */
  predicate Trimmed(s: string) {
    s == [] || (!IsSpace(s[0]) && !IsSpace(s[|s| - 1]))
  }

  /** The number of white-space characters at the start of `s`. */
  function LeadingSpace(s: string): (n: nat)
    ensures n <= |s| && AllSpace(s[..n])
    ensures n < |s| ==> !IsSpace(s[n])
  {
    if s != [] && IsSpace(s[0]) then
      var m := LeadingSpace(s[1..]);
      assert s[..m + 1] == [s[0]] + s[1..][..m];
      m + 1
    else 0
  }

  /** The number of white-space characters at the end of `s`. */
  function TrailingSpace(s: string): (n: nat)
    ensures n <= |s| && AllSpace(s[|s| - n..])
    ensures n < |s| ==> !IsSpace(s[|s| - n - 1])
  {
    if s != [] && IsSpace(s[|s| - 1]) then
      var front := s[..|s| - 1];
      var m := TrailingSpace(front);
      assert s[|s| - (m + 1)..] == front[|front| - m..] + [s[|s| - 1]];
      assert AllSpace(s[|s| - (m + 1)..]);
      assert m + 1 < |s| ==> s[|s| - (m + 1) - 1] == front[|front| - m - 1];
      m + 1
    else 0
  }

  /** `strings.TrimSpace`: the result is the part of `s` left once the white
      space at both ends is cut away, and it starts and ends with no white space. */
  function TrimSpace(s: string): (r: string)
    ensures Trimmed(r)
    ensures exists i, j | 0 <= i <= j <= |s| :: r == s[i..j] && AllSpace(s[..i]) && AllSpace(s[j..])
  {
    var i := LeadingSpace(s);
    var rest := s[i..];
    var n := TrailingSpace(rest);
    var j := |s| - n;
    assert s[j..] == rest[|rest| - n..];
    var r := s[i..j];
    assert i < j ==> r[0] == s[i] && !IsSpace(s[i]);
    assert i < j ==> r[|r| - 1] == rest[|rest| - n - 1] && !IsSpace(rest[|rest| - n - 1]);
    assert r == s[i..j] && AllSpace(s[..i]) && AllSpace(s[j..]);
    r
  }

  /** Trimming twice cuts nothing more. */
  lemma TrimSpaceIdempotent(s: string)
    ensures TrimSpace(TrimSpace(s)) == TrimSpace(s)
  {
    var t := TrimSpace(s);
    assert LeadingSpace(t) == 0;
    assert t[0..] == t;
    assert TrailingSpace(t) == 0;
    assert t[0..|t|] == t;
  }

  predicate IsLowerAsciiLetter(c: char) {
    'a' <= c <= 'z'
  }

  /** Whether `c` is in the simple case-folding orbit of the ASCII lower-case
      letter `w`: `w`, its upper case, and for 'k' and 's' also KELVIN SIGN
      (U+212A) and LATIN SMALL LETTER LONG S (U+017F). */
  predicate FoldsTo(c: char, w: char)
    requires IsLowerAsciiLetter(w)
  {
    || c == w
    || c as int == w as int - 32
    || (w == 'k' && c == '\U{212A}')
    || (w == 's' && c == '\U{017F}')
  }

  /** `strings.EqualFold(s, word)` for a word made of ASCII lower-case letters. */
  predicate EqualFold(s: string, word: string)
    requires forall i | 0 <= i < |word| :: IsLowerAsciiLetter(word[i])
  {
    |s| == |word| && forall i | 0 <= i < |s| :: FoldsTo(s[i], word[i])
  }
}

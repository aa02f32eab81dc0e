/** Character and string primitives that the chat widget relies on:
    `toLowerCase`, `includes` and `trim` of JavaScript strings.

    Lowercasing is modelled on ASCII letters only (every other character is
    left as it is); whitespace is the fixed set of code points that
    `String.prototype.trim` strips. */
module Text {

  /** Lowercasing of one character: 'A'..'Z' become 'a'..'z', everything else
      is unchanged. */
  function LowerChar(c: char): (r: char)
    ensures !('A' <= r <= 'Z')
    ensures r == c || ('A' <= c <= 'Z' && r as int - c as int == 'a' as int - 'A' as int)
  {
    if 'A' <= c <= 'Z' then (c as int - 'A' as int + 'a' as int) as char else c
  }

  /** `s.toLowerCase()`, character by character. */
  function Lower(s: string): (r: string)
    ensures |r| == |s|
    ensures forall i :: 0 <= i < |s| ==> r[i] == LowerChar(s[i])
  {
    if s == [] then [] else [LowerChar(s[0])] + Lower(s[1..])
  }

  /** A lowercased string has no upper-case letter, so lowercasing twice is
      lowercasing once. */
  lemma LowerIdempotent(s: string)
    ensures Lower(Lower(s)) == Lower(s)
  {
    assert forall i :: 0 <= i < |s| ==> Lower(Lower(s))[i] == Lower(s)[i];
  }

  /** `s.includes(kw)`: `kw` is a prefix of `s` or occurs further on. */
  predicate Contains(s: string, kw: string)
    decreases |s|
  {
    kw <= s || (s != [] && Contains(s[1..], kw))
  }

  /** `kw` occurs in `s` exactly when it is a prefix of some suffix of `s`. */
  lemma {:induction false} ContainsIff(s: string, kw: string)
    ensures Contains(s, kw) <==> exists i :: 0 <= i <= |s| && kw <= s[i..]
  {
    assert s[0..] == s;
    if s != [] {
      ContainsIff(s[1..], kw);
      if exists i :: 0 <= i <= |s| && kw <= s[i..] {
        var i :| 0 <= i <= |s| && kw <= s[i..];
        if i > 0 {
          assert s[1..][i - 1..] == s[i..];
        }
      }
      if !(kw <= s) && Contains(s[1..], kw) {
        var i :| 0 <= i <= |s| - 1 && kw <= s[1..][i..];
        assert s[1..][i..] == s[i + 1..];
      }
    }
  }

  /** An occurrence at a known position. */
  lemma ContainsAt(s: string, kw: string, i: nat)
    requires i <= |s| && kw <= s[i..]
    ensures Contains(s, kw)
  {
    ContainsIff(s, kw);
  }

  /** Case-insensitive occurrence: if `w` occurs in `s`, then the lowercased `w`
      occurs in the lowercased `s`, at the same position. */
  lemma ContainsLower(s: string, w: string)
    requires Contains(s, w)
    ensures Contains(Lower(s), Lower(w))
  {
    ContainsIff(s, w);
    var i :| 0 <= i <= |s| && w <= s[i..];
    assert forall j :: 0 <= j < |w| ==> w[j] == s[i + j];
    assert forall j :: 0 <= j < |w| ==> Lower(w)[j] == Lower(s)[i + j];
    ContainsAt(Lower(s), Lower(w), i);
  }

  /** A keyword that has a character which the text lacks does not occur in
      the text. */
  lemma MissingCharNotContained(s: string, kw: string, c: char)
    requires c in kw && c !in s
    ensures !Contains(s, kw)
  {
    ContainsIff(s, kw);
  }

  /** A lower-case letter occurs in the lowercased text only if it, or its
      upper-case form, occurs in the text. */
  lemma LowerMissingChar(s: string, c: char)
    requires 'a' <= c <= 'z'
    requires c !in s && (c as int - 'a' as int + 'A' as int) as char !in s
    ensures c !in Lower(s)
  {
  }

  /** The characters `String.prototype.trim` strips: the WhiteSpace code points
      (TAB, VT, FF, ZWNBSP and every space separator) and the LineTerminator
      code points (LF, CR, LS, PS). */
  predicate IsWhitespace(c: char) {
    c == '\t' || c == '\n' || c == '\U{B}' || c == '\U{C}' || c == '\r'
    || c == ' ' || c == '\U{A0}' || c == '\U{1680}'
    || ('\U{2000}' <= c <= '\U{200A}')
    || c == '\U{2028}' || c == '\U{2029}' || c == '\U{202F}' || c == '\U{205F}'
    || c == '\U{3000}' || c == '\U{FEFF}'
  }

  /** Drops the leading whitespace: the result is a suffix of `s`, everything
      dropped is whitespace, and the result does not start with whitespace. */
  function TrimStart(s: string): (r: string)
    ensures |r| <= |s| && r == s[|s| - |r|..]
    ensures forall i :: 0 <= i < |s| - |r| ==> IsWhitespace(s[i])
    ensures r != [] ==> !IsWhitespace(r[0])
  {
    if s != [] && IsWhitespace(s[0]) then TrimStart(s[1..]) else s
  }

  /** Drops the trailing whitespace: the result is a prefix of `s`, everything
      dropped is whitespace, and the result does not end with whitespace. */
  function TrimEnd(s: string): (r: string)
    ensures |r| <= |s| && r == s[..|r|]
    ensures forall i :: |r| <= i < |s| ==> IsWhitespace(s[i])
    ensures r != [] ==> !IsWhitespace(r[|r| - 1])
  {
    if s != [] && IsWhitespace(s[|s| - 1]) then TrimEnd(s[..|s| - 1]) else s
  }

  /** `s.trim()`. */
  function Trim(s: string): string {
    TrimEnd(TrimStart(s))
  }

  /** `!s.trim()`: the trimmed string is the empty (falsy) string. */
  predicate IsBlank(s: string) {
    Trim(s) == ""
  }

  /** A string is blank exactly when every character of it is whitespace; in
      particular the empty string is blank. */
  lemma BlankIffAllWhitespace(s: string)
    ensures IsBlank(s) <==> forall i :: 0 <= i < |s| ==> IsWhitespace(s[i])
  {
  }
}

/**
 * The JavaScript string operations the core uses: `trim`, `toLowerCase`,
 * `includes`, `startsWith` and `slice`. Strings are sequences of characters.
 */
module Strings {

  /**
   * The characters `String.prototype.trim` strips: the ECMAScript WhiteSpace
   * code points (tab, vertical tab, form feed, space, no-break space, byte
   * order mark and the Unicode space separators) and the LineTerminator code
   * points (LF, CR, LS, PS).
   */
  predicate IsWhitespace(c: char) {
    c == '\t' || c == '\U{000B}' || c == '\U{000C}' || c == ' ' || c == '\U{00A0}'
    || c == '\U{FEFF}' || c == '\n' || c == '\r' || c == '\U{2028}' || c == '\U{2029}'
    || c == '\U{1680}' || ('\U{2000}' <= c <= '\U{200A}') || c == '\U{202F}'
    || c == '\U{205F}' || c == '\U{3000}'
  }

  /** Every character of `s` is whitespace (the string is empty after `trim`). */
  predicate AllWhitespace(s: string) {
    forall i :: 0 <= i < |s| ==> IsWhitespace(s[i])
  }

  /** The characters `s[lo..hi]` are all whitespace. */
  predicate WhitespaceIn(s: string, lo: int, hi: int) {
    forall i :: lo <= i < hi && 0 <= i < |s| ==> IsWhitespace(s[i])
  }

  /** The index of the first non-whitespace character at or after `i`, or `|s|`. */
  function SkipLeading(s: string, i: nat): (k: nat)
    requires i <= |s|
    ensures i <= k <= |s|
    ensures WhitespaceIn(s, i, k)
    ensures k == |s| || !IsWhitespace(s[k])
    decreases |s| - i
  {
    if i < |s| && IsWhitespace(s[i]) then SkipLeading(s, i + 1) else i
  }

  /** The end of `s[lo..j]` once its trailing whitespace is cut off. */
  function SkipTrailing(s: string, lo: nat, j: nat): (k: nat)
    requires lo <= j <= |s|
    ensures lo <= k <= j
    ensures WhitespaceIn(s, k, j)
    ensures k == lo || !IsWhitespace(s[k - 1])
    decreases j
  {
    if lo < j && IsWhitespace(s[j - 1]) then SkipTrailing(s, lo, j - 1) else j
  }

  /** Where the trimmed part of `s` starts. */
  function TrimLo(s: string): nat {
    SkipLeading(s, 0)
  }

  /** Where the trimmed part of `s` ends. */
  function TrimHi(s: string): (hi: nat)
    ensures TrimLo(s) <= hi <= |s|
  {
    SkipTrailing(s, TrimLo(s), |s|)
  }

  /**
   * `s.trim()`: what is left after removing leading and trailing whitespace.
   * TrimIsInfix says that this is a contiguous middle part of `s`.
   */
  function Trim(s: string): (r: string)
    ensures |r| <= |s|
    ensures r == [] || (!IsWhitespace(r[0]) && !IsWhitespace(r[|r| - 1]))
  {
    s[TrimLo(s)..TrimHi(s)]
  }

  /** The trimmed string sits in `s` between a whitespace prefix and a whitespace suffix. */
  lemma TrimIsInfix(s: string) returns (lo: nat)
    ensures lo + |Trim(s)| <= |s|
    ensures Trim(s) == s[lo..lo + |Trim(s)|]
    ensures WhitespaceIn(s, 0, lo) && WhitespaceIn(s, lo + |Trim(s)|, |s|)
  {
    lo := TrimLo(s);
    assert lo + |Trim(s)| == TrimHi(s);
  }

  /** `s.trim() === ''`. */
  predicate IsBlank(s: string) {
    Trim(s) == []
  }

  /** A string is blank exactly when every character is whitespace. */
  lemma BlankIffAllWhitespace(s: string)
    ensures IsBlank(s) <==> AllWhitespace(s)
  {
    var lo := TrimIsInfix(s);
    var r := Trim(s);
    if r != [] {
      assert s[lo] == r[0];
    }
  }

  /** Trimming is idempotent. */
  lemma TrimIdempotent(s: string)
    ensures Trim(Trim(s)) == Trim(s)
  {
    var r := Trim(s);
    assert TrimLo(r) == 0;
    assert TrimHi(r) == |r|;
  }

  /**
   * `toLowerCase` on one character. Only the ASCII letters are mapped; the rest
   * of Unicode's case mapping is not part of this model.
   */
  function LowerChar(c: char): (r: char)
    ensures 'A' <= c <= 'Z' ==> 'a' <= r <= 'z'
    ensures !('A' <= c <= 'Z') ==> r == c
    ensures !('A' <= r <= 'Z')
  {
    if 'A' <= c <= 'Z' then (c as int - 'A' as int + 'a' as int) as char else c
  }

  /** `s.toLowerCase()`, character by character. */
  function ToLower(s: string): (r: string)
    ensures |r| == |s|
    ensures forall i :: 0 <= i < |s| ==> r[i] == LowerChar(s[i])
  {
    seq(|s|, i requires 0 <= i < |s| => LowerChar(s[i]))
  }

  lemma ToLowerIdempotent(s: string)
    ensures ToLower(ToLower(s)) == ToLower(s)
  {
  }

  predicate IsPrefix(p: string, s: string) {
    |p| <= |s| && s[..|p|] == p
  }

  /** `hay.includes(needle)`: `needle` occurs in `hay` as a contiguous block. */
  predicate Includes(hay: string, needle: string) {
    exists i :: 0 <= i <= |hay| - |needle| && IsPrefix(needle, hay[i..])
  }

  /** `s.startsWith(prefix)`. */
  predicate StartsWith(s: string, prefix: string) {
    IsPrefix(prefix, s)
  }

  /** `s.slice(0, n)` for n >= 0: the first n characters, or all of them. */
  function SliceTo(s: string, n: nat): (r: string)
    ensures |r| == if n < |s| then n else |s|
    ensures r == s[..|r|]
  {
    if n < |s| then s[..n] else s
  }
}

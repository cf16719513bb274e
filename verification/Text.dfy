/** Characters and strings as the expression language reads them. */
module Text {

  datatype Option<+T> = None | Some(value: T)

  const NUL: char := 0 as char

  predicate IsWhite(c: char) {
    c == ' ' || c == '\n' || c == '\r' || c == '\t'
  }

  predicate IsAlpha(c: char) {
    'a' <= c <= 'z' || 'A' <= c <= 'Z'
  }

  predicate IsDigit(c: char) {
    '0' <= c <= '9'
  }

  predicate IsHexDigit(c: char) {
    IsDigit(c) || 'a' <= c <= 'f' || 'A' <= c <= 'F'
  }

  predicate IsAlnum(c: char) {
    IsAlpha(c) || IsDigit(c)
  }

  /** Lower-casing of one character: ASCII, and the two non-ASCII letters whose lower case is ASCII. */
  function LowerChar(c: char): char {
    if 'A' <= c <= 'Z' then ((c as int) + 32) as char
    else if c == '\U{212A}' then 'k'
    else if c == '\U{0130}' then 'i'
    else c
  }

  /** Simple case folding, which additionally equates the long s with s. */
  function FoldChar(c: char): char {
    if c == '\U{017F}' then 's'
    else if c == '\U{0130}' then c
    else LowerChar(c)
  }

  function Lower(s: string): (r: string)
    ensures |r| == |s|
    ensures forall i | 0 <= i < |s| :: r[i] == LowerChar(s[i])
  {
    if s == "" then "" else [LowerChar(s[0])] + Lower(s[1..])
  }

  /** Lower-casing of ASCII letters alone, as keys are looked up: no other character is equated with an ASCII letter. */
  function AsciiLower(s: string): (r: string)
    ensures |r| == |s|
    ensures forall i | 0 <= i < |s| :: r[i] == if 'A' <= s[i] <= 'Z' then LowerChar(s[i]) else s[i]
  {
    if s == "" then "" else [if 'A' <= s[0] <= 'Z' then LowerChar(s[0]) else s[0]] + AsciiLower(s[1..])
  }

  predicate EqualFold(a: string, b: string) {
    |a| == |b| && forall i | 0 <= i < |a| :: FoldChar(a[i]) == FoldChar(b[i])
  }

  predicate HasPrefix(s: string, p: string) {
    |p| <= |s| && s[..|p|] == p
  }

  /** The text is whitespace throughout. */
  predicate AllWhite(s: string) {
    forall i | 0 <= i < |s| :: IsWhite(s[i])
  }

  lemma ThreeTruths(t: Option<bool>)
    ensures t == None || t == Some(true) || t == Some(false)
  {
    if t.Some? && t.value { assert t == Some(true); }
  }
}

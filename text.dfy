/**
 * The few string operations the backend and the frontend rely on:
 * trimming white space (JavaScript's `String.prototype.trim`, Python's
 * `str.strip`) and ASCII lower-casing (`str.lower`, `toLowerCase`).
 */
module Text {

  /** Whose notion of white space a trim uses; the two lists differ. */
  datatype Dialect = JavaScript | Python

  /** ECMAScript WhiteSpace and LineTerminator, or Python's `str.isspace`. */
  predicate IsSpace(d: Dialect, c: char) {
    || c == ' ' || c == '\t' || c == '\n' || c == '\U{B}' || c == '\U{C}' || c == '\r'
    || c == '\U{A0}' || c == '\U{1680}' || ('\U{2000}' <= c <= '\U{200A}')
    || c == '\U{2028}' || c == '\U{2029}' || c == '\U{202F}' || c == '\U{205F}' || c == '\U{3000}'
    || (d == JavaScript && c == '\U{FEFF}')
    || (d == Python && (('\U{1C}' <= c <= '\U{1F}') || c == '\U{85}'))
  }

  /** All characters of `s` are white space (vacuously so for ""). */
  predicate IsBlank(d: Dialect, s: string) {
    forall i :: 0 <= i < |s| ==> IsSpace(d, s[i])
  }

  /** `s` without its leading white space. */
  function TrimStart(d: Dialect, s: string): (r: string)
    ensures |r| <= |s| && r == s[|s| - |r|..]
    ensures IsBlank(d, s[..|s| - |r|])
    ensures r != [] ==> !IsSpace(d, r[0])
  {
    if s != [] && IsSpace(d, s[0]) then
      var r := TrimStart(d, s[1..]);
      assert s[..|s| - |r|] == [s[0]] + s[1..][..|s| - 1 - |r|];
      r
    else s
  }

  /** `s` without its trailing white space. */
  function TrimEnd(d: Dialect, s: string): (r: string)
    ensures |r| <= |s| && r == s[..|r|]
    ensures IsBlank(d, s[|r|..])
    ensures r != [] ==> !IsSpace(d, r[|r| - 1])
  {
    if s != [] && IsSpace(d, s[|s| - 1]) then
      var r := TrimEnd(d, s[..|s| - 1]);
      assert s[|r|..] == s[..|s| - 1][|r|..] + [s[|s| - 1]];
      r
    else s
  }

  /** `s` without leading and trailing white space. */
  function Trim(d: Dialect, s: string): string {
    TrimEnd(d, TrimStart(d, s))
  }

  /** A string trims to "" exactly when it consists of white space only. */
  lemma {:induction false} TrimEmptyIffBlank(d: Dialect, s: string)
    ensures Trim(d, s) == [] <==> IsBlank(d, s)
  {
    var t := TrimStart(d, s);
    if t == [] {
      assert s[..|s|] == s;
    } else {
      assert !IsSpace(d, t[0]) && s[|s| - |t|] == t[0];
    }
  }

  /** The ASCII part of lower-casing: 'A'..'Z' become 'a'..'z'. */
  function LowerChar(c: char): char {
    if 'A' <= c <= 'Z' then (c as int + 32) as char else c
  }

  /** Lower-cases every ASCII letter of `s` and keeps every other character. */
  function Lower(s: string): (r: string)
    ensures |r| == |s|
  {
    seq(|s|, i requires 0 <= i < |s| => LowerChar(s[i]))
  }

  /** JavaScript's `message || fallback` on strings: an empty message falls back. */
  function OrElse(message: string, fallback: string): (r: string)
    ensures r == "" ==> message == "" && fallback == ""
    ensures message != "" ==> r == message
    ensures message == "" ==> r == fallback
  {
    if message != "" then message else fallback
  }
}

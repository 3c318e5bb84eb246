/**
 * The parts of .NET string semantics the login handshake relies on:
 * `char.IsWhiteSpace`, `string.IsNullOrWhiteSpace`, `string.Length`
 * (UTF-16 code units) and, as an independent reference, `string.Trim`.
 */
module Text {
  import opened Wrappers

  /** `char.IsWhiteSpace`: the Unicode separators (categories Zs, Zl, Zp)
      together with the control characters U+0009..U+000D and U+0085. */
  predicate IsWhiteSpace(c: char) {
    || ('\t' <= c <= '\r')
    || c == ' '
    || c == '\U{0085}'
    || c == '\U{00A0}'
    || c == '\U{1680}'
    || ('\U{2000}' <= c <= '\U{200A}')
    || c == '\U{2028}'
    || c == '\U{2029}'
    || c == '\U{202F}'
    || c == '\U{205F}'
    || c == '\U{3000}'
  }

  predicate AllWhiteSpace(s: string) {
    forall i :: 0 <= i < |s| ==> IsWhiteSpace(s[i])
  }

  /** `string.IsNullOrWhiteSpace`: null, empty, or whitespace only. */
  predicate IsNullOrWhiteSpace(s: Option<string>) {
    s.None? || AllWhiteSpace(s.value)
  }

  /** Number of UTF-16 code units that encode `c`. */
  function CodeUnits(c: char): nat {
    if c as int < 0x1_0000 then 1 else 2
  }

  /** `string.Length`: a .NET string is a sequence of UTF-16 code units, so a
      character outside the Basic Multilingual Plane counts twice. */
  function Length(s: string): (n: nat)
    ensures |s| <= n <= 2 * |s|
    ensures n == 0 <==> s == []
  {
    if s == [] then 0 else CodeUnits(s[0]) + Length(s[1..])
  }

  /** For text inside the Basic Multilingual Plane the .NET length is the
      number of characters. */
  lemma {:induction false} LengthOfBmpText(s: string)
    requires forall i :: 0 <= i < |s| ==> s[i] as int < 0x1_0000
    ensures Length(s) == |s|
  {
    if s != [] {
      assert s[0] as int < 0x1_0000;
      LengthOfBmpText(s[1..]);
    }
  }

  /** `string.TrimStart()`: drops leading whitespace. */
  function TrimStart(s: string): (r: string)
    ensures |r| <= |s| && r == s[|s| - |r|..]
    ensures r == [] || !IsWhiteSpace(r[0])
    ensures AllWhiteSpace(s[..|s| - |r|])
  {
    if s != [] && IsWhiteSpace(s[0]) then
      var r := TrimStart(s[1..]);
      assert s[..|s| - |r|] == [s[0]] + s[1..][..|s| - 1 - |r|];
      r
    else s
  }

  /** `string.TrimEnd()`: drops trailing whitespace. */
  function TrimEnd(s: string): (r: string)
    ensures |r| <= |s| && r == s[..|r|]
    ensures r == [] || !IsWhiteSpace(r[|r| - 1])
    ensures AllWhiteSpace(s[|r|..])
  {
    if s != [] && IsWhiteSpace(s[|s| - 1]) then
      var r := TrimEnd(s[..|s| - 1]);
      assert s[|r|..] == s[..|s| - 1][|r|..] + [s[|s| - 1]];
      r
    else s
  }

  /** `string.Trim()`. */
  function Trim(s: string): string {
    TrimEnd(TrimStart(s))
  }

  /** A string is whitespace only exactly when trimming it leaves nothing,
      so `IsNullOrWhiteSpace` agrees with "empty after trimming". */
  lemma WhiteSpaceIffTrimmedEmpty(s: string)
    ensures AllWhiteSpace(s) <==> Trim(s) == []
  {
    var t := TrimStart(s);
    if t != [] {
      // the first character of t is kept by TrimEnd, so Trim(s) is not empty
      assert !IsWhiteSpace(t[0]);
      assert !IsWhiteSpace(s[|s| - |t|]);
    } else {
      assert s[..|s| - |t|] == s;
    }
  }
}

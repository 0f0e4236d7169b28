/**
 * The Python string operations the generation service relies on:
 * `str.strip()`, `str.startswith` and `str.endswith`.
 */
module Text {

  /**
   * The characters for which Python's `str.isspace()` holds, and which
   * `str.strip()` with no argument removes.
   */
  predicate IsWhitespace(c: char) {
    ('\t' <= c <= '\r') || ('\U{1C}' <= c <= ' ') || c == '\U{85}' || c == '\U{A0}'
    || c == '\U{1680}' || ('\U{2000}' <= c <= '\U{200A}') || c == '\U{2028}' || c == '\U{2029}'
    || c == '\U{202F}' || c == '\U{205F}' || c == '\U{3000}'
  }

  predicate StartsWith(s: string, prefix: string) {
    |prefix| <= |s| && s[..|prefix|] == prefix
  }

  predicate EndsWith(s: string, suffix: string) {
    |suffix| <= |s| && s[|s| - |suffix|..] == suffix
  }

  /** The number of whitespace characters `s` starts with. */
  function LeadingWhitespace(s: string): (n: nat)
    ensures n <= |s|
    ensures n < |s| ==> !IsWhitespace(s[n])
    ensures forall i :: 0 <= i < n ==> IsWhitespace(s[i])
  {
    if s != [] && IsWhitespace(s[0]) then 1 + LeadingWhitespace(s[1..]) else 0
  }

  /** The number of whitespace characters `s` ends with. */
  function TrailingWhitespace(s: string): (n: nat)
    ensures n <= |s|
    ensures n < |s| ==> !IsWhitespace(s[|s| - 1 - n])
    ensures forall i :: |s| - n <= i < |s| ==> IsWhitespace(s[i])
  {
    if s != [] && IsWhitespace(s[|s| - 1]) then 1 + TrailingWhitespace(s[..|s| - 1]) else 0
  }

  /** `s.lstrip()`. */
  function TrimStart(s: string): string {
    s[LeadingWhitespace(s)..]
  }

  /** `s.rstrip()`. */
  function TrimEnd(s: string): string {
    s[..|s| - TrailingWhitespace(s)]
  }

  /** `s.strip()`: never longer than `s`, and with no whitespace at either end. */
  function Strip(s: string): (r: string)
    ensures |r| <= |s|
    ensures r == [] || (!IsWhitespace(r[0]) && !IsWhitespace(r[|r| - 1]))
  {
    var t := TrimStart(s);
    var n := TrailingWhitespace(t);
    assert |t| - n > 0 ==> t[0] == s[LeadingWhitespace(s)];
    TrimEnd(t)
  }

  /**
   * The first clause of StripSlice alone. Fence stripping chains it several
   * times, and the whitespace clauses of StripSlice would only slow that down.
   */
  lemma StripIsSlice(s: string) returns (i: nat, j: nat)
    ensures i <= j <= |s| && Strip(s) == s[i..j]
  {
    var t := TrimStart(s);
    i := LeadingWhitespace(s);
    j := i + |Strip(s)|;
    assert t[..|Strip(s)|] == s[i..j];
  }

  /** What `strip` leaves is a contiguous piece of its input with no whitespace at either end. */
  lemma StripSlice(s: string) returns (i: nat, j: nat)
    ensures i <= j <= |s| && Strip(s) == s[i..j]
    ensures Strip(s) == [] || (!IsWhitespace(Strip(s)[0]) && !IsWhitespace(Strip(s)[|Strip(s)| - 1]))
    ensures forall k :: 0 <= k < i ==> IsWhitespace(s[k])
    ensures forall k :: j <= k < |s| ==> IsWhitespace(s[k])
  {
    var t := TrimStart(s);
    i := LeadingWhitespace(s);
    var n := TrailingWhitespace(t);
    j := |s| - n;
    assert t[..|t| - n] == s[i..j];
    forall k | j <= k < |s|
      ensures IsWhitespace(s[k])
    {
      assert s[k] == t[k - i];
    }
    if i < j {
      assert Strip(s)[0] == s[i];
      assert Strip(s)[|Strip(s)| - 1] == t[|t| - 1 - n];
    }
  }

  /** A string with no whitespace at either end is left alone by `strip`. */
  lemma StripTrimmed(s: string)
    requires s == [] || (!IsWhitespace(s[0]) && !IsWhitespace(s[|s| - 1]))
    ensures Strip(s) == s
  {
    assert LeadingWhitespace(s) == 0;
  }

  /** `strip` is idempotent. */
  lemma StripIdempotent(s: string)
    ensures Strip(Strip(s)) == Strip(s)
  {
    var _, _ := StripSlice(s);
    StripTrimmed(Strip(s));
  }
}

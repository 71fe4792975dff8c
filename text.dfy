/**
 * String helpers shared by the recorder: the subset of Kotlin's `String`
 * API the engine uses. Character classification is an ASCII approximation
 * of Kotlin's Unicode-wide `isWhitespace`, `isLetterOrDigit` and `lowercase`.
 */
module Text {
  import opened Wrappers

  /** Kotlin `Char.isWhitespace`, restricted to ASCII: space, TAB..CR, and the
      four separator controls U+001C..U+001F that Java counts as whitespace. */
  predicate IsWhitespace(c: char) {
    c == ' ' || ('\t' <= c <= '\r') || ('\U{1C}' <= c <= '\U{1F}')
  }

  predicate IsAsciiLetter(c: char) {
    ('a' <= c <= 'z') || ('A' <= c <= 'Z')
  }

  predicate IsDigit(c: char) {
    '0' <= c <= '9'
  }

  /** Kotlin `Char.isLetterOrDigit`, restricted to ASCII. */
  predicate IsLetterOrDigit(c: char) {
    IsAsciiLetter(c) || IsDigit(c)
  }

  /** `String.isBlank()`: empty or whitespace only. */
  predicate IsBlank(s: string) {
    forall i :: 0 <= i < |s| ==> IsWhitespace(s[i])
  }

  predicate HasLetterOrDigit(s: string) {
    exists i :: 0 <= i < |s| && IsLetterOrDigit(s[i])
  }

  predicate StartsWith(s: string, p: string) {
    |p| <= |s| && s[..|p|] == p
  }

  predicate EndsWith(s: string, p: string) {
    |p| <= |s| && s[|s| - |p|..] == p
  }

  /** `t` occurs in `s` at position `i`. */
  predicate OccursAt(s: string, t: string, i: int) {
    0 <= i && i + |t| <= |s| && s[i..i + |t|] == t
  }

  lemma OccursShift(s: string, t: string, j: int)
    requires |s| > 0 && j >= 1
    ensures OccursAt(s, t, j) <==> OccursAt(s[1..], t, j - 1)
  {
    if j + |t| <= |s| {
      assert s[1..][j - 1..j - 1 + |t|] == s[j..j + |t|];
    }
  }

  /** `String.indexOf`: the first position where `t` occurs in `s`. */
  function IndexOf(s: string, t: string): (r: Option<nat>)
    ensures r.Some? ==> OccursAt(s, t, r.value)
    ensures r.Some? ==> forall j :: 0 <= j < r.value ==> !OccursAt(s, t, j)
    ensures r.None? ==> forall j :: 0 <= j <= |s| ==> !OccursAt(s, t, j)
    decreases |s|
  {
    if |s| < |t| then None
    else if s[..|t|] == t then Some(0)
    else
      var rest := IndexOf(s[1..], t);
      forall j | 1 <= j <= |s| ensures OccursAt(s, t, j) <==> OccursAt(s[1..], t, j - 1) {
        OccursShift(s, t, j);
      }
      match rest
      case None => None
      case Some(k) => Some(k + 1)
  }

  /** `CharSequence.contains`. */
  predicate Contains(s: string, t: string) {
    IndexOf(s, t).Some?
  }

  /** `String.substringAfter(d)`: the text after the first `d`, or all of `s`
      when `d` does not occur. */
  function SubstringAfter(s: string, d: string): string {
    match IndexOf(s, d)
    case Some(i) => s[i + |d|..]
    case None => s
  }

  /** Index of the first non-whitespace character at or after `i`. */
  function SkipLeading(s: string, i: nat): (k: nat)
    requires i <= |s|
    ensures i <= k <= |s|
    ensures forall j :: i <= j < k ==> IsWhitespace(s[j])
    ensures k < |s| ==> !IsWhitespace(s[k])
    decreases |s| - i
  {
    if i == |s| || !IsWhitespace(s[i]) then i else SkipLeading(s, i + 1)
  }

  /** One past the last non-whitespace character at or before `j`, not below `lo`. */
  function SkipTrailing(s: string, lo: nat, j: nat): (k: nat)
    requires lo <= j <= |s|
    ensures lo <= k <= j
    ensures forall m :: k <= m < j ==> IsWhitespace(s[m])
    ensures k > lo ==> !IsWhitespace(s[k - 1])
    decreases j
  {
    if j == lo || !IsWhitespace(s[j - 1]) then j else SkipTrailing(s, lo, j - 1)
  }

  /** `String.trim()`: drops leading and trailing whitespace. */
  function Trim(s: string): (r: string)
    ensures |r| <= |s|
    ensures exists i :: OccursAt(s, r, i)
    ensures r != [] ==> !IsWhitespace(r[0]) && !IsWhitespace(r[|r| - 1])
    ensures r == [] <==> IsBlank(s)
  {
    var a := SkipLeading(s, 0);
    var b := SkipTrailing(s, a, |s|);
    assert OccursAt(s, s[a..b], a);
    if a < b then
      assert !IsWhitespace(s[a]) && !IsWhitespace(s[b - 1]);
      s[a..b]
    else
      s[a..b]
  }

  /** ASCII `lowercase()`. */
  function ToLowerChar(c: char): char {
    if 'A' <= c <= 'Z' then (c as int - 'A' as int + 'a' as int) as char else c
  }

  function ToLower(s: string): (r: string)
    ensures |r| == |s|
    ensures forall i :: 0 <= i < |s| ==> r[i] == ToLowerChar(s[i])
  {
    seq(|s|, i requires 0 <= i < |s| => ToLowerChar(s[i]))
  }

  /** The UTF-16 code units a character takes in a JVM string: two (a
      surrogate pair) above the Basic Multilingual Plane, one otherwise. */
  function Utf16Width(c: char): nat {
    if c as int >= 0x1_0000 then 2 else 1
  }

  /** `String.length` on the JVM: the number of UTF-16 code units. */
  function Utf16Length(s: string): (n: nat)
    ensures |s| <= n <= 2 * |s|
  {
    if s == [] then 0 else Utf16Width(s[0]) + Utf16Length(s[1..])
  }

  /** `String.take(n)`, which counts UTF-16 code units: the longest prefix of
      `s` that fits in `n` units. A surrogate pair that would straddle the
      cut is left out whole. */
  function Take(s: string, n: nat): (r: string)
    ensures StartsWith(s, r)
    ensures Utf16Length(r) <= n
    ensures Utf16Length(s) <= n <==> r == s
    ensures |r| < |s| ==> n < Utf16Length(r) + Utf16Width(s[|r|])
  {
    if s == [] then []
    else if Utf16Width(s[0]) <= n then
      var rest := Take(s[1..], n - Utf16Width(s[0]));
      assert ([s[0]] + rest)[1..] == rest;
      assert |rest| < |s[1..]| ==> s[1..][|rest|] == s[|rest| + 1];
      [s[0]] + rest
    else []
  }
}

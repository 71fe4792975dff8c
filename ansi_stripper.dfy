/**
 * Removal of terminal control sequences of the shape
 * ESC `[` {digit or `;`}* letter, the pattern `\u001b\[[0-9;]*[a-zA-Z]`
 * shared by `AnsiStripper` and `RecorderService.stripAnsiCodes`.
 * The regex engine is replaced by a left-to-right character scanner.
 */
module AnsiStripper {
  import opened Wrappers
  import opened Text

  const Esc: char := '\U{1B}'

  predicate IsParamChar(c: char) {
    IsDigit(c) || c == ';'
  }

  /** The regular language of the pattern, stated directly. */
  predicate IsAnsiSeq(t: string) {
    && |t| >= 3
    && t[0] == Esc && t[1] == '['
    && IsAsciiLetter(t[|t| - 1])
    && forall k :: 2 <= k < |t| - 1 ==> IsParamChar(t[k])
  }

  /** First index at or after `k` that does not hold a parameter character. */
  function ParamEnd(s: string, k: nat): (j: nat)
    requires k <= |s|
    ensures k <= j <= |s|
    ensures forall m :: k <= m < j ==> IsParamChar(s[m])
    ensures j < |s| ==> !IsParamChar(s[j])
    decreases |s| - k
  {
    if k == |s| || !IsParamChar(s[k]) then k else ParamEnd(s, k + 1)
  }

  /** Where a sequence starting at `i` ends (exclusive), if one starts there. */
  function MatchEnd(s: string, i: nat): (r: Option<nat>)
    requires i <= |s|
    ensures r.Some? ==> i + 3 <= r.value <= |s|
  {
    if i + 1 < |s| && s[i] == Esc && s[i + 1] == '[' then
      var j := ParamEnd(s, i + 2);
      if j < |s| && IsAsciiLetter(s[j]) then Some(j + 1) else None
    else None
  }

  /** The scanner finds a sequence at `i` exactly when the pattern matches
      some text starting at `i`, and then the match is the one it reports. */
  lemma MatchEndSpec(s: string, i: nat, e: nat)
    requires i <= e <= |s|
    ensures IsAnsiSeq(s[i..e]) <==> MatchEnd(s, i) == Some(e)
  {
    if IsAnsiSeq(s[i..e]) {
      var t := s[i..e];
      assert forall m :: i + 2 <= m < e - 1 ==> IsParamChar(s[m]) by {
        forall m | i + 2 <= m < e - 1 ensures IsParamChar(s[m]) { assert s[m] == t[m - i]; }
      }
      assert s[e - 1] == t[|t| - 1];
    }
    if MatchEnd(s, i) == Some(e) {
      var t := s[i..e];
      assert t[|t| - 1] == s[e - 1];
      assert forall k :: 2 <= k < |t| - 1 ==> IsParamChar(t[k]) by {
        forall k | 2 <= k < |t| - 1 ensures IsParamChar(t[k]) { assert t[k] == s[i + k]; }
      }
    }
  }

  /** `stripAnsi` (and `stripAnsiCodes`): every sequence is deleted, scanning
      from the left; each other character is kept. */
  function StripAnsi(s: string): (r: string)
    ensures |r| <= |s|
    decreases |s|
  {
    if s == [] then []
    else
      match MatchEnd(s, 0)
      case Some(e) => StripAnsi(s[e..])
      case None => [s[0]] + StripAnsi(s[1..])
  }

  /** `containsAnsi`: the scanner finds a sequence at some position. */
  predicate ContainsAnsi(s: string)
    decreases |s|
  {
    s != [] && (MatchEnd(s, 0).Some? || ContainsAnsi(s[1..]))
  }

  /** A match found in `s[1..]` is a match in `s`, one position later. */
  lemma MatchShift(s: string, i: nat, e: nat)
    requires 1 <= i <= e <= |s|
    ensures s[1..][i - 1..e - 1] == s[i..e]
  {
  }

  /** `containsAnsi(t)` holds exactly when some substring of `t` has the shape. */
  lemma {:induction false} ContainsAnsiSpec(s: string)
    ensures ContainsAnsi(s) <==> exists i, e :: 0 <= i <= e <= |s| && IsAnsiSeq(s[i..e])
  {
    if s == [] {
    } else {
      ContainsAnsiSpec(s[1..]);
      if ContainsAnsi(s) {
        if MatchEnd(s, 0).Some? {
          var e := MatchEnd(s, 0).value;
          MatchEndSpec(s, 0, e);
        } else {
          var i, e :| 0 <= i <= e <= |s[1..]| && IsAnsiSeq(s[1..][i..e]);
          MatchShift(s, i + 1, e + 1);
        }
      }
      if exists i, e :: 0 <= i <= e <= |s| && IsAnsiSeq(s[i..e]) {
        var i, e :| 0 <= i <= e <= |s| && IsAnsiSeq(s[i..e]);
        if i == 0 {
          MatchEndSpec(s, 0, e);
        } else {
          MatchShift(s, i, e);
          assert IsAnsiSeq(s[1..][i - 1..e - 1]);
        }
      }
    }
  }

  /** Text without any sequence is returned unchanged. */
  lemma {:induction false} StripWithoutAnsi(s: string)
    requires !ContainsAnsi(s)
    ensures StripAnsi(s) == s
  {
    if s != [] {
      StripWithoutAnsi(s[1..]);
    }
  }

  /** Text with a sequence comes back strictly shorter. */
  lemma {:induction false} StripWithAnsiShrinks(s: string)
    requires ContainsAnsi(s)
    ensures |StripAnsi(s)| < |s|
  {
    if MatchEnd(s, 0).None? {
      StripWithAnsiShrinks(s[1..]);
    }
  }

  /** Stripping changes the text exactly when `containsAnsi` holds. */
  lemma StripIdentityIff(s: string)
    ensures StripAnsi(s) == s <==> !ContainsAnsi(s)
  {
    if ContainsAnsi(s) {
      StripWithAnsiShrinks(s);
    } else {
      StripWithoutAnsi(s);
    }
  }

  /** `a` is `b` with some characters deleted, the rest in order. */
  predicate IsSubsequence(a: string, b: string)
    decreases |b|
  {
    a == [] || (b != [] && ((a[0] == b[0] && IsSubsequence(a[1..], b[1..])) || IsSubsequence(a, b[1..])))
  }

  lemma {:induction false} SubsequenceOfLonger(a: string, c: string, b: string)
    requires IsSubsequence(a, b)
    ensures IsSubsequence(a, c + b)
    decreases |c|
  {
    if c != [] {
      SubsequenceOfLonger(a, c[1..], b);
      assert (c + b)[1..] == c[1..] + b;
    } else {
      assert c + b == b;
    }
  }

  /** Stripping only deletes: what is left keeps its original order. */
  /** Deleting characters never lengthens a text in UTF-16 code units. */
  lemma {:induction false} SubsequenceUtf16(a: string, b: string)
    requires IsSubsequence(a, b)
    ensures Utf16Length(a) <= Utf16Length(b)
    decreases |b|
  {
    if a != [] {
      if a[0] == b[0] && IsSubsequence(a[1..], b[1..]) {
        SubsequenceUtf16(a[1..], b[1..]);
      } else {
        SubsequenceUtf16(a, b[1..]);
      }
    }
  }

  lemma {:induction false} StripIsSubsequence(s: string)
    ensures IsSubsequence(StripAnsi(s), s)
    decreases |s|
  {
    if s != [] {
      match MatchEnd(s, 0)
      case Some(e) =>
        StripIsSubsequence(s[e..]);
        SubsequenceOfLonger(StripAnsi(s[e..]), s[..e], s[e..]);
        assert s[..e] + s[e..] == s;
      case None =>
        StripIsSubsequence(s[1..]);
    }
  }

  /** Plain text (no escape character) passes through untouched. */
  lemma {:induction false} StripPlainPrefix(p: string, q: string)
    requires forall k :: 0 <= k < |p| ==> p[k] != Esc
    ensures StripAnsi(p + q) == p + StripAnsi(q)
    decreases |p|
  {
    if p != [] {
      assert (p + q)[1..] == p[1..] + q;
      StripPlainPrefix(p[1..], q);
      assert p == [p[0]] + p[1..];
    } else {
      assert p + q == q;
    }
  }

  /** A complete sequence at the front is deleted whatever follows it. */
  lemma StripSeqPrefix(m: string, q: string)
    requires IsAnsiSeq(m)
    ensures StripAnsi(m + q) == StripAnsi(q)
  {
    var s := m + q;
    assert s[0..|m|] == m;
    MatchEndSpec(s, 0, |m|);
    assert s[|m|..] == q;
  }

  /** An escape character at which no sequence starts is kept like any other
      character, and the scan goes on from the next position. */
  lemma ForeignEscKept(s: string)
    requires s != []
    requires forall e :: 0 <= e <= |s| ==> !IsAnsiSeq(s[..e])
    ensures StripAnsi(s) == [s[0]] + StripAnsi(s[1..])
  {
    forall e | 0 <= e <= |s| ensures MatchEnd(s, 0) != Some(e) {
      MatchEndSpec(s, 0, e);
      assert s[0..e] == s[..e];
    }
  }

  /** Sequences around plain text are removed and the text is kept. */
  lemma StripAroundPlainText(open: string, a: string, close: string, b: string)
    requires IsAnsiSeq(open) && IsAnsiSeq(close)
    requires forall k :: 0 <= k < |a| ==> a[k] != Esc
    requires forall k :: 0 <= k < |b| ==> b[k] != Esc
    ensures StripAnsi(open + a + close + b) == a + b
  {
    assert open + a + close + b == open + a + (close + b);
    SeqThenPlain(open, a, close + b);
    assert close + b == close + b + [];
    SeqThenPlain(close, b, []);
    assert b + [] == b;
  }

  /** A sequence, then plain text, then anything: the sequence goes, the text stays. */
  lemma SeqThenPlain(m: string, a: string, q: string)
    requires IsAnsiSeq(m)
    requires forall k :: 0 <= k < |a| ==> a[k] != Esc
    ensures StripAnsi(m + a + q) == a + StripAnsi(q)
  {
    assert m + a + q == m + (a + q);
    StripSeqPrefix(m, a + q);
    StripPlainPrefix(a, q);
  }

  /** The test vector: red and reset codes around text. */
  lemma StripRedText()
    ensures StripAnsi([Esc] + "[31m" + "Red text" + [Esc] + "[0m" + " Normal text") == "Red text Normal text"
  {
    var red, reset := [Esc] + "[31m", [Esc] + "[0m";
    var a, b := "Red text", " Normal text";
    assert IsAnsiSeq(red) && IsAnsiSeq(reset);
    assert forall k :: 0 <= k < |a| ==> a[k] != Esc;
    assert forall k :: 0 <= k < |b| ==> b[k] != Esc;
    assert [Esc] + "[31m" + "Red text" + [Esc] + "[0m" + " Normal text" == red + a + reset + b;
    StripAroundPlainText(red, a, reset, b);
    assert a + b == "Red text Normal text";
  }

  /** The detection test vectors. */
  lemma ContainsAnsiExamples(s: string, t: string)
    requires s == "\U{1B}[31mRed text\U{1B}[0m"
    requires t == "Normal text"
    ensures ContainsAnsi(s)
    ensures !ContainsAnsi(t)
  {
    assert s[2] == '3' && s[3] == '1' && s[4] == 'm';
    assert ParamEnd(s, 4) == 4;
    assert ParamEnd(s, 2) == 4;
    assert MatchEnd(s, 0) == Some(5);
    StripPlainPrefix(t, []);
    assert t + [] == t;
    StripIdentityIff(t);
  }

  /** The second test vector: text without codes is returned unchanged. */
  lemma StripPlainExample(t: string)
    requires t == "Normal text without ANSI codes"
    ensures StripAnsi(t) == t
  {
    StripPlainPrefix(t, []);
    assert t + [] == t;
  }

  /** Sequences outside the shape are kept: a `?` parameter, or no final letter. */
  lemma ForeignSequencesKept()
    ensures StripAnsi("\U{1B}[?25h") == "\U{1B}[?25h"
    ensures StripAnsi("\U{1B}[12;") == "\U{1B}[12;"
  {
    PrivateModeKept("\U{1B}[?25h");
    UnterminatedKept("\U{1B}[12;");
  }

  lemma PrivateModeKept(a: string)
    requires a == "\U{1B}[?25h"
    ensures StripAnsi(a) == a
  {
    assert ParamEnd(a, 2) == 2;
    assert MatchEnd(a, 0).None?;
    StripPlainPrefix(a[1..], []);
    assert a[1..] + [] == a[1..];
  }

  lemma UnterminatedKept(b: string)
    requires b == "\U{1B}[12;"
    ensures StripAnsi(b) == b
  {
    assert ParamEnd(b, 2) == 5;
    assert MatchEnd(b, 0).None?;
    StripPlainPrefix(b[1..], []);
    assert b[1..] + [] == b[1..];
  }

  /** One pass only: deleting an inner sequence can join the characters
      around it into a new one, which is then left in place. */
  lemma StripIsSinglePass()
    ensures StripAnsi("\U{1B}[\U{1B}[31mm") == "\U{1B}[m"
    ensures ContainsAnsi(StripAnsi("\U{1B}[\U{1B}[31mm"))
  {
    var s := "\U{1B}[\U{1B}[31mm";
    assert ParamEnd(s, 2) == 2;
    assert MatchEnd(s, 0).None?;
    assert s[1..][1..] == "\U{1B}[31m" + "m";
    StripSeqPrefix("\U{1B}[31m", "m");
    assert MatchEnd("\U{1B}[m", 0) == Some(3);
  }
}

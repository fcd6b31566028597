/**
 * `escape_ansi` (utils.py): removal of ECMA-48 control sequences in their
 * CSI form, as the regular expression `(\x9B|\x1B\[)[0-?]*[ -\/]*[@-~]`
 * substituted by the empty string: an introducer (the one-character CSI or
 * ESC `[`), parameter bytes 0x30-0x3F, intermediate bytes 0x20-0x2F and one
 * final byte 0x40-0x7E. The three byte classes are disjoint, so the greedy
 * match never backtracks and each position has at most one match.
 */
module Utils {
  import opened Wrappers

  const ESC: char := '\U{1B}'
  const CSI: char := '\U{9B}'

  predicate IsParameter(c: char) { '0' <= c <= '?' }
  predicate IsIntermediate(c: char) { ' ' <= c <= '/' }
  predicate IsFinal(c: char) { '@' <= c <= '~' }

  /** Length of the introducer `s` starts with, 0 when it starts with none. */
  function IntroducerLength(s: string): nat {
    if |s| >= 1 && s[0] == CSI then 1
    else if |s| >= 2 && s[0] == ESC && s[1] == '[' then 2
    else 0
  }

  /** A complete control sequence: introducer, parameter bytes, then intermediate bytes, then one final byte. */
  predicate IsControlSequence(t: string) {
    var n := IntroducerLength(t);
    && n > 0 && |t| > n && IsFinal(t[|t| - 1])
    && (forall k :: n <= k < |t| - 1 ==> IsParameter(t[k]) || IsIntermediate(t[k]))
    && (forall k, m :: n <= k < m < |t| - 1 && IsIntermediate(t[k]) ==> IsIntermediate(t[m]))
  }

  /** The end of the run of parameter bytes starting at `i`. */
  function SkipParameters(s: string, i: nat): (j: nat)
    requires i <= |s|
    ensures i <= j <= |s|
    ensures forall k :: i <= k < j ==> IsParameter(s[k])
    ensures j == |s| || !IsParameter(s[j])
    decreases |s| - i
  {
    if i < |s| && IsParameter(s[i]) then SkipParameters(s, i + 1) else i
  }

  /** The end of the run of intermediate bytes starting at `i`. */
  function SkipIntermediates(s: string, i: nat): (j: nat)
    requires i <= |s|
    ensures i <= j <= |s|
    ensures forall k :: i <= k < j ==> IsIntermediate(s[k])
    ensures j == |s| || !IsIntermediate(s[j])
    decreases |s| - i
  {
    if i < |s| && IsIntermediate(s[i]) then SkipIntermediates(s, i + 1) else i
  }

  /** Length of the control sequence the pattern matches at the head of `s`, if any. */
  function MatchLength(s: string): (r: Option<nat>)
    ensures r.Some? ==> 0 < r.value <= |s| && IsControlSequence(s[..r.value])
  {
    var n := IntroducerLength(s);
    if n == 0 then None
    else
      var p := SkipParameters(s, n);
      var q := SkipIntermediates(s, p);
      if q < |s| && IsFinal(s[q]) then
        assert IntroducerLength(s[..q + 1]) == n;
        Some(q + 1)
      else None
  }

  /** Whenever a control sequence starts `s`, the pattern matches exactly it. */
  lemma MatchLengthComplete(s: string, n: nat)
    requires 0 < n <= |s| && IsControlSequence(s[..n])
    ensures MatchLength(s) == Some(n)
  {
    var t := s[..n];
    var m := IntroducerLength(s);
    assert m == IntroducerLength(t);
    assert s[n - 1] == t[n - 1];
    var p := SkipParameters(s, m);
    assert p <= n - 1;
    var q := SkipIntermediates(s, p);
    forall k | p <= k < n - 1 ensures IsIntermediate(s[k]) {
      assert s[p] == t[p] && s[k] == t[k];
      assert IsIntermediate(t[p]);
    }
    assert q == n - 1;
    assert s[q] == t[n - 1];
  }

  /** `ansi_escape.sub('', s)`: scan left to right, dropping every match. */
  function EscapeAnsi(s: string): (r: string)
    ensures |r| <= |s|
    decreases |s|
  {
    if s == [] then []
    else match MatchLength(s)
      case Some(n) => EscapeAnsi(s[n..])
      case None => [s[0]] + EscapeAnsi(s[1..])
  }

  /** A control sequence at the head is removed, and nothing after it is affected. */
  lemma EscapeAnsiDropsSequence(t: string, rest: string)
    requires IsControlSequence(t)
    ensures EscapeAnsi(t + rest) == EscapeAnsi(rest)
  {
    assert (t + rest)[..|t|] == t;
    MatchLengthComplete(t + rest, |t|);
    assert (t + rest)[|t|..] == rest;
  }

  /** An introducer that no final byte completes is kept. */
  lemma EscapeAnsiKeepsUnterminated(s: string)
    requires IntroducerLength(s) > 0
    requires forall n :: 0 < n <= |s| ==> !IsControlSequence(s[..n])
    ensures EscapeAnsi(s) == [s[0]] + EscapeAnsi(s[1..])
  {
  }

  /** Text containing neither ESC nor CSI comes back unchanged. */
  lemma {:induction false} EscapeAnsiPlain(s: string)
    requires ESC !in s && CSI !in s
    ensures EscapeAnsi(s) == s
    decreases |s|
  {
    if s != [] {
      assert s[0] in s;
      EscapeAnsiPlain(s[1..]);
      assert [s[0]] + s[1..] == s;
    }
  }

  /** `a` is obtained from `b` by deleting characters. */
  predicate IsSubsequence(a: string, b: string)
    decreases |b|
  {
    a == [] || (b != [] && if a[0] == b[0] then IsSubsequence(a[1..], b[1..]) else IsSubsequence(a, b[1..]))
  }

  /** A subsequence of the tail is a subsequence of the whole. */
  lemma {:induction false} SubsequenceCons(a: string, b: string)
    requires b != [] && IsSubsequence(a, b[1..])
    ensures IsSubsequence(a, b)
    decreases |b|, 0
  {
    if a != [] && a[0] == b[0] {
      SubsequenceDropHead(a, b[1..]);
    }
  }

  lemma {:induction false} SubsequenceDropHead(a: string, b: string)
    requires a != [] && IsSubsequence(a, b)
    ensures IsSubsequence(a[1..], b)
    decreases |b|, 1
  {
    if a[0] == b[0] {
      SubsequenceCons(a[1..], b);
    } else {
      SubsequenceDropHead(a, b[1..]);
      SubsequenceCons(a[1..], b);
    }
  }

  lemma {:induction false} SubsequenceOfLonger(a: string, b: string, c: string)
    requires IsSubsequence(a, b)
    ensures IsSubsequence(a, c + b)
    decreases |c|
  {
    if c == [] {
      assert c + b == b;
    } else {
      SubsequenceOfLonger(a, b, c[1..]);
      assert (c + b)[1..] == c[1..] + b;
      SubsequenceCons(a, c + b);
    }
  }

  /** The output is the input with characters deleted. */
  lemma {:induction false} EscapeAnsiSubsequence(s: string)
    ensures IsSubsequence(EscapeAnsi(s), s)
    decreases |s|
  {
    if s != [] {
      match MatchLength(s)
      case Some(n) =>
        EscapeAnsiSubsequence(s[n..]);
        SubsequenceOfLonger(EscapeAnsi(s[n..]), s[n..], s[..n]);
        assert s[..n] + s[n..] == s;
      case None =>
        EscapeAnsiSubsequence(s[1..]);
    }
  }

  function NewlineCount(s: string): nat
    decreases |s|
  {
    if s == [] then 0 else (if s[0] == '\n' then 1 else 0) + NewlineCount(s[1..])
  }

  lemma {:induction false} NewlineCountAppend(a: string, b: string)
    ensures NewlineCount(a + b) == NewlineCount(a) + NewlineCount(b)
    decreases |a|
  {
    if a == [] {
      assert a + b == b;
    } else {
      NewlineCountAppend(a[1..], b);
      assert (a + b)[1..] == a[1..] + b;
    }
  }

  lemma {:induction false} NoNewlineNoCount(s: string)
    requires '\n' !in s
    ensures NewlineCount(s) == 0
    decreases |s|
  {
    if s != [] {
      assert s[0] in s;
      NoNewlineNoCount(s[1..]);
    }
  }

  /** A control sequence holds no line break. */
  lemma ControlSequenceHasNoNewline(t: string)
    requires IsControlSequence(t)
    ensures '\n' !in t
  {
    forall k | 0 <= k < |t| ensures t[k] != '\n' {
      if k >= IntroducerLength(t) && k < |t| - 1 {
        assert IsParameter(t[k]) || IsIntermediate(t[k]);
      }
    }
  }

  /** Dropping a control sequence at the head keeps the count of line breaks. */
  lemma NewlineCountAfterSequence(s: string, n: nat)
    requires 0 < n <= |s| && IsControlSequence(s[..n])
    ensures NewlineCount(s) == NewlineCount(s[n..])
  {
    ControlSequenceHasNoNewline(s[..n]);
    NoNewlineNoCount(s[..n]);
    NewlineCountAppend(s[..n], s[n..]);
    assert s[..n] + s[n..] == s;
  }

  /** No line break is ever removed: a control sequence holds none. */
  lemma {:induction false} EscapeAnsiKeepsNewlines(s: string)
    ensures NewlineCount(EscapeAnsi(s)) == NewlineCount(s)
    decreases |s|
  {
    if s != [] {
      match MatchLength(s)
      case Some(n) =>
        EscapeAnsiKeepsNewlines(s[n..]);
        NewlineCountAfterSequence(s, n);
      case None =>
        EscapeAnsiKeepsNewlines(s[1..]);
    }
  }

  /** A control sequence never takes in a final line break: its last character is a final byte. */
  lemma SequenceEndsBeforeNewline(s: string, n: nat)
    requires 0 < n <= |s| && IsControlSequence(s[..n]) && s[|s| - 1] == '\n'
    ensures n < |s| && s[n..][|s| - n - 1] == '\n'
  {
    assert s[..n][n - 1] == s[n - 1];
  }

  /** Text that ends a line still ends one once escaped: a final byte is never a line break. */
  lemma {:induction false} EscapeAnsiKeepsTrailingNewline(s: string)
    requires |s| > 0 && s[|s| - 1] == '\n'
    ensures |EscapeAnsi(s)| > 0 && EscapeAnsi(s)[|EscapeAnsi(s)| - 1] == '\n'
    decreases |s|
  {
    match MatchLength(s)
    case Some(n) =>
      SequenceEndsBeforeNewline(s, n);
      EscapeAnsiKeepsTrailingNewline(s[n..]);
      assert EscapeAnsi(s) == EscapeAnsi(s[n..]);
    case None =>
      assert EscapeAnsi(s) == [s[0]] + EscapeAnsi(s[1..]);
      if |s| > 1 {
        EscapeAnsiKeepsTrailingNewline(s[1..]);
      }
  }
}

/** The JavaScript string operations the application relies on, over
    sequences of characters: indexOf/includes, startsWith (Dafny's prefix
    `<=`), replace with a string pattern, split on one character, and trim. */
module Strings {

  /** The characters String.prototype.trim removes: ECMAScript's WhiteSpace
      (tab, vertical tab, form feed, space, no-break space, byte order mark
      and the Unicode space separators) and LineTerminator (line feed,
      carriage return, line and paragraph separators). */
  predicate IsWhitespace(c: char) {
    || c == '\t' || c == '\n' || c == '\U{000B}' || c == '\U{000C}' || c == '\r'
    || c == ' ' || c == '\U{00A0}' || c == '\U{1680}'
    || ('\U{2000}' <= c <= '\U{200A}')
    || c == '\U{2028}' || c == '\U{2029}' || c == '\U{202F}' || c == '\U{205F}'
    || c == '\U{3000}' || c == '\U{FEFF}'
  }

  predicate AllWhitespace(s: string) {
    forall k :: 0 <= k < |s| ==> IsWhitespace(s[k])
  }

  /** Neither end of `s` is whitespace. */
  predicate IsTrimmed(s: string) {
    s == [] || (!IsWhitespace(s[0]) && !IsWhitespace(s[|s| - 1]))
  }

  /** `sub` occurs in `s` starting at index `i`. */
  predicate OccursAt(s: string, sub: string, i: int) {
    0 <= i && i + |sub| <= |s| && s[i..i + |sub|] == sub
  }

  /** String.prototype.indexOf(sub, from): the first occurrence at or after
      `from`, or -1. */
  function IndexOfFrom(s: string, sub: string, from: nat): (r: int)
    ensures r == -1 || (from <= r && OccursAt(s, sub, r))
    ensures r == -1 ==> forall k :: from <= k ==> !OccursAt(s, sub, k)
    ensures r != -1 ==> forall k :: from <= k < r ==> !OccursAt(s, sub, k)
    decreases |s| - from
  {
    if from + |sub| > |s| then -1
    else if s[from..from + |sub|] == sub then from
    else IndexOfFrom(s, sub, from + 1)
  }

  function IndexOf(s: string, sub: string): (r: int)
    ensures r == -1 <==> forall k :: !OccursAt(s, sub, k)
    ensures r != -1 ==> OccursAt(s, sub, r) && forall k :: k < r ==> !OccursAt(s, sub, k)
  {
    IndexOfFrom(s, sub, 0)
  }

  /** String.prototype.includes. */
  predicate Contains(s: string, sub: string) {
    IndexOf(s, sub) != -1
  }

  /** A piece of a string that does not contain `sub` does not contain it either. */
  lemma {:induction false} InfixKeepsAbsence(s: string, sub: string, i: nat, j: nat)
    requires i <= j <= |s|
    requires !Contains(s, sub)
    ensures !Contains(s[i..j], sub)
  {
    forall k | OccursAt(s[i..j], sub, k) ensures OccursAt(s, sub, i + k) {
      InfixOccurrence(s, sub, i, j, k);
    }
  }

  /** An occurrence inside the piece `s[i..j]` is an occurrence in `s`. */
  lemma InfixOccurrence(s: string, sub: string, i: nat, j: nat, k: int)
    requires i <= j <= |s|
    requires OccursAt(s[i..j], sub, k)
    ensures OccursAt(s, sub, i + k)
  {
    var t := s[i..j];
    var a := t[k..k + |sub|];
    var b := s[i + k..i + k + |sub|];
    forall m | 0 <= m < |a| ensures a[m] == b[m] {
      assert a[m] == t[k + m];
    }

  }

  /** The part of `s` before its first occurrence of `sub`, or all of `s`:
      what `s.split(sub)[0]` gives. */
  function BeforeFirst(s: string, sub: string): (r: string)
    ensures r <= s
    ensures |sub| > 0 ==> !Contains(r, sub)
    ensures !Contains(s, sub) ==> r == s
    ensures Contains(s, sub) ==> OccursAt(s, sub, |r|) && forall k :: 0 <= k < |r| ==> !OccursAt(s, sub, k)
  {
    var i := IndexOf(s, sub);
    if i == -1 then s
    else
      if |sub| > 0 then
        PrefixBeforeFirst(s, sub, i);
        s[..i]
      else s[..i]
  }

  lemma PrefixBeforeFirst(s: string, sub: string, i: nat)
    requires i <= |s|
    requires forall k :: k < i ==> !OccursAt(s, sub, k)
    requires |sub| > 0
    ensures !Contains(s[..i], sub)
  {
    forall k ensures !OccursAt(s[..i], sub, k) {
      if OccursAt(s[..i], sub, k) {
        InfixOccurrence(s, sub, 0, i, k);
      }
    }
  }

  /** String.prototype.replace with a string pattern: only the first
      occurrence is replaced; without one the string is returned unchanged. */
  function ReplaceFirst(s: string, pattern: string, replacement: string): (r: string)
    ensures !Contains(s, pattern) ==> r == s
    ensures Contains(s, pattern) ==> |r| == |s| - |pattern| + |replacement|
  {
    var i := IndexOf(s, pattern);
    if i == -1 then s else s[..i] + replacement + s[i + |pattern|..]
  }

  /** The replacement happens at the first occurrence, wherever that is. */
  lemma ReplaceFirstAtFirst(s: string, pattern: string, replacement: string, i: nat)
    requires OccursAt(s, pattern, i)
    requires forall k :: 0 <= k < i ==> !OccursAt(s, pattern, k)
    ensures ReplaceFirst(s, pattern, replacement) == s[..i] + replacement + s[i + |pattern|..]
  {
    assert IndexOf(s, pattern) == i;
  }

  /** A second, later occurrence of the pattern survives the replacement. */
  lemma LaterOccurrenceSurvives(s: string, pattern: string, replacement: string, j: nat)
    requires OccursAt(s, pattern, j)
    requires IndexOf(s, pattern) + |pattern| <= j
    ensures OccursAt(ReplaceFirst(s, pattern, replacement), pattern, j - |pattern| + |replacement|)
  {
    var i := IndexOf(s, pattern);
    ReplaceFirstAtFirst(s, pattern, replacement, i);
    SpliceShift(s, i, |pattern|, replacement, j, |pattern|);
  }

  /** After a piece of length `n` at `i` is spliced out for `rep`, what
      followed it sits `|rep| - n` places further on. */
  lemma SpliceShift<T>(s: seq<T>, i: nat, n: nat, rep: seq<T>, j: nat, m: nat)
    requires i + n <= j && j + m <= |s|
    ensures var r := s[..i] + rep + s[i + n..];
      j - n + |rep| + m <= |r| && r[j - n + |rep|..j - n + |rep| + m] == s[j..j + m]
  {
    var front := s[..i] + rep;
    var back := s[i + n..];
    var d := j - n + |rep|;
    assert (front + back)[d..d + m] == back[d - |front|..d - |front| + m];
    assert back[j - i - n..j - i - n + m] == s[j..j + m];
  }

  /** Number of whitespace characters at the start of `s`. */
  function LeadingSpace(s: string): (n: nat)
    ensures n <= |s|
    ensures AllWhitespace(s[..n])
    ensures n < |s| ==> !IsWhitespace(s[n])
  {
    if s == [] || !IsWhitespace(s[0]) then 0
    else
      var m := LeadingSpace(s[1..]);
      assert s[..1 + m] == [s[0]] + s[1..][..m];
      1 + m
  }

  /** Number of whitespace characters at the end of `s`. */
  function TrailingSpace(s: string): (n: nat)
    ensures n <= |s|
    ensures AllWhitespace(s[|s| - n..])
    ensures n < |s| ==> !IsWhitespace(s[|s| - 1 - n])
  {
    if s == [] || !IsWhitespace(s[|s| - 1]) then 0
    else
      var t := s[..|s| - 1];
      var m := TrailingSpace(t);
      assert s[|s| - (1 + m)..] == t[|t| - m..] + [s[|s| - 1]];
      1 + m
  }

  /** String.prototype.trim: `s` without its leading and trailing whitespace. */
  function Trim(s: string): (r: string)
    ensures IsTrimmed(r)
    ensures r == [] <==> AllWhitespace(s)
  {
    var t := s[LeadingSpace(s)..];
    var r := t[..|t| - TrailingSpace(t)];
    assert r != [] ==> r[0] == t[0];
    assert t != [] ==> !IsWhitespace(s[LeadingSpace(s)]);
    assert r == [] ==> AllWhitespace(s) by {
      if r == [] {
        assert t == t[|t| - TrailingSpace(t)..];
        assert s == s[..LeadingSpace(s)] + t;
      }
    }
    r
  }

  /** Trim keeps a piece of `s` that starts at the returned index and has
      only whitespace before and after it. */
  lemma TrimIsInfix(s: string) returns (i: nat)
    ensures i + |Trim(s)| <= |s|
    ensures s[i..i + |Trim(s)|] == Trim(s)
    ensures AllWhitespace(s[..i]) && AllWhitespace(s[i + |Trim(s)|..])
  {
    i := LeadingSpace(s);
    var t := s[i..];
    var n := TrailingSpace(t);
    var m := |t| - n;
    assert Trim(s) == t[..m];
    assert s[i..i + m] == t[..m];
    assert s[i + m..] == t[m..];
  }

  /** Trimming a string with no whitespace at either end changes nothing. */
  lemma TrimmedIsFixed(s: string)
    requires IsTrimmed(s)
    ensures Trim(s) == s
  {
    if s != [] {
      assert LeadingSpace(s) == 0;
      assert TrailingSpace(s) == 0;
    }
  }

  lemma TrimIdempotent(s: string)
    ensures Trim(Trim(s)) == Trim(s)
  {
    TrimmedIsFixed(Trim(s));
  }

  /** Trimming does not make a string contain what it did not. */
  lemma TrimKeepsAbsence(s: string, sub: string)
    requires !Contains(s, sub)
    ensures !Contains(Trim(s), sub)
  {
    var i := TrimIsInfix(s);
    InfixKeepsAbsence(s, sub, i, i + |Trim(s)|);
  }

  /** String.prototype.split with a one-character separator. */
  function Split(s: string, sep: char): (r: seq<string>)
    ensures |r| >= 1
    ensures forall k :: 0 <= k < |r| ==> sep !in r[k]
    ensures Join(r, sep) == s
  {
    if s == [] then [""]
    else
      var rest := Split(s[1..], sep);
      if s[0] == sep then
        assert s == [sep] + s[1..];
        [""] + rest
      else
        var parts := [[s[0]] + rest[0]] + rest[1..];
        JoinHead(rest, sep, s[0]);
        assert s == [s[0]] + s[1..];
        parts
  }

  /** Array.prototype.join with a one-character separator; the inverse of Split. */
  function Join(parts: seq<string>, sep: char): (r: string)
    requires |parts| >= 1
  {
    if |parts| == 1 then parts[0] else parts[0] + [sep] + Join(parts[1..], sep)
  }

  lemma JoinHead(parts: seq<string>, sep: char, c: char)
    requires |parts| >= 1
    ensures Join([[c] + parts[0]] + parts[1..], sep) == [c] + Join(parts, sep)
  {
    var q := [[c] + parts[0]] + parts[1..];
    assert q[1..] == parts[1..];
  }

  /** Splitting what Join built gives back the parts when none holds the separator. */
  lemma {:induction false} SplitJoin(parts: seq<string>, sep: char)
    requires |parts| >= 1
    requires forall k :: 0 <= k < |parts| ==> sep !in parts[k]
    ensures Split(Join(parts, sep), sep) == parts
  {
    if |parts| == 1 {
      SplitNoSeparator(parts[0], sep);
    } else {
      SplitJoin(parts[1..], sep);
      SplitAfterPiece(parts[0], Join(parts[1..], sep), sep);
    }
  }

  lemma {:induction false} SplitNoSeparator(s: string, sep: char)
    requires sep !in s
    ensures Split(s, sep) == [s]
  {
    if s != [] {
      SplitNoSeparator(s[1..], sep);
    }
  }

  lemma {:induction false} SplitAfterPiece(piece: string, tail: string, sep: char)
    requires sep !in piece
    ensures Split(piece + [sep] + tail, sep) == [piece] + Split(tail, sep)
  {
    var s := piece + [sep] + tail;
    if piece == [] {
      assert s[1..] == tail;
    } else {
      assert s[1..] == piece[1..] + [sep] + tail;
      SplitAfterPiece(piece[1..], tail, sep);
      assert s[0] == piece[0] && [piece[0]] + piece[1..] == piece;
    }
  }
}

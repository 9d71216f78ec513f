/**
 * The pieces of Go's `strings` and `regexp` packages that the fingerprint
 * matcher relies on, written out on `seq<char>`: ASCII lower-casing,
 * substring search, `strings.Split`, and the first-match / all-matches
 * search of the greedy one-line patterns `<open>(.*)<close>`.
 */
module Strs {
  import opened Types

  /** `strings.ToLower` restricted to ASCII letters. */
  function LowerChar(c: char): char {
    if 'A' <= c <= 'Z' then (c as int + 32) as char else c
  }

  function Lower(s: string): string {
    seq(|s|, i requires 0 <= i < |s| => LowerChar(s[i]))
  }

  /** Lower-casing twice is lower-casing once. */
  lemma LowerIdempotent(s: string)
    ensures Lower(Lower(s)) == Lower(s)
  {
  }

  /** `t` occurs in `s` starting at index `i`. */
  predicate At(s: string, t: string, i: nat) {
    i + |t| <= |s| && s[i..i + |t|] == t
  }

  /** `t` occurs in `s` at some index from `from` on. */
  predicate ContainsFrom(s: string, t: string, from: nat)
    decreases |s| - from
  {
    from + |t| <= |s| && (s[from..from + |t|] == t || ContainsFrom(s, t, from + 1))
  }

  /** `strings.Contains(s, t)`. */
  predicate Contains(s: string, t: string) {
    ContainsFrom(s, t, 0)
  }

  lemma {:induction false} ContainsFromAt(s: string, t: string, from: nat)
    decreases |s| - from
    ensures ContainsFrom(s, t, from) <==> exists i: nat :: from <= i && At(s, t, i)
  {
    if from + |t| <= |s| {
      ContainsFromAt(s, t, from + 1);
      if s[from..from + |t|] == t {
        assert At(s, t, from);
      }
      if exists i: nat :: from <= i && At(s, t, i) {
        var i: nat :| from <= i && At(s, t, i);
        if i > from {
          assert from + 1 <= i && At(s, t, i);
        }
      }
    }
  }

  /** `Contains(s, t)` holds exactly when `t` occurs at some index of `s`. */
  lemma ContainsAt(s: string, t: string)
    ensures Contains(s, t) <==> exists i: nat :: At(s, t, i)
  {
    ContainsFromAt(s, t, 0);
  }

  /** The empty string occurs in every string. */
  lemma ContainsEmpty(s: string)
    ensures Contains(s, [])
  {
    assert s[0..0] == [];
  }

  /** A string occurs wherever it is written. */
  lemma ContainsInfix(a: string, t: string, b: string)
    ensures Contains(a + t + b, t)
  {
    assert (a + t + b)[|a|..|a| + |t|] == t;
    assert At(a + t + b, t, |a|);
    ContainsAt(a + t + b, t);
  }

  /** Whatever holds a string holds each piece of it. */
  lemma ContainsPiece(s: string, a: string, b: string, c: string)
    requires Contains(s, a + b + c)
    ensures Contains(s, b)
  {
    ContainsAt(s, a + b + c);
    var i: nat :| At(s, a + b + c, i);
    var w := s[i..i + |a + b + c|];
    assert w == a + b + c;
    SliceOfSlice(s, i, i + |a + b + c|, |a|, |a| + |b|);
    assert (a + b + c)[|a|..|a| + |b|] == b;
    assert At(s, b, i + |a|);
    ContainsAt(s, b);
  }

  lemma SliceOfSlice(s: string, i: nat, j: nat, k: nat, l: nat)
    requires i <= j <= |s| && k <= l <= j - i
    ensures s[i..j][k..l] == s[i + k..i + l]
  {
    forall q | 0 <= q < l - k
      ensures s[i..j][k..l][q] == s[i + k..i + l][q]
    {
    }
  }

  /** `strings.Index` from position `from` on: the first occurrence of `t`, if any. */
  function IndexOf(s: string, t: string, from: nat): (r: Option<nat>)
    requires from <= |s|
    decreases |s| - from
    ensures r.Some? ==> from <= r.value && At(s, t, r.value)
    ensures r.Some? ==> forall j: nat :: from <= j < r.value ==> !At(s, t, j)
    ensures r.None? ==> forall j: nat :: from <= j <= |s| ==> !At(s, t, j)
  {
    if At(s, t, from) then Some(from)
    else if from == |s| then None
    else IndexOf(s, t, from + 1)
  }

  /** `strings.Index(s, t) >= 0` is exactly `Contains(s, t)`. */
  lemma IndexOfFinds(s: string, t: string)
    ensures IndexOf(s, t, 0).Some? <==> Contains(s, t)
  {
    ContainsAt(s, t);
    if IndexOf(s, t, 0).Some? {
      assert At(s, t, IndexOf(s, t, 0).value);
    }
  }

  /** `strings.Split(s, sep)` for a non-empty separator. */
  function Split(s: string, sep: string): (parts: seq<string>)
    requires |sep| > 0
    decreases |s|
    ensures |parts| >= 1
  {
    match IndexOf(s, sep, 0)
    case None => [s]
    case Some(i) => [s[..i]] + Split(s[i + |sep|..], sep)
  }

  /** `strings.Join(parts, sep)`. */
  function Join(parts: seq<string>, sep: string): string
    decreases |parts|
  {
    if |parts| == 0 then []
    else if |parts| == 1 then parts[0]
    else parts[0] + sep + Join(parts[1..], sep)
  }

  /** Joining the parts back with the separator gives the original string. */
  lemma {:induction false} SplitJoin(s: string, sep: string)
    requires |sep| > 0
    decreases |s|
    ensures Join(Split(s, sep), sep) == s
  {
    match IndexOf(s, sep, 0)
    case None =>
    case Some(i) =>
      var rest := s[i + |sep|..];
      var tail := Split(rest, sep);
      SplitJoin(rest, sep);
      var parts := [s[..i]] + tail;
      assert Split(s, sep) == parts;
      assert parts[1..] == tail;
      assert Join(parts, sep) == s[..i] + sep + Join(tail, sep);
      assert s[i..i + |sep|] == sep;
      assert s == s[..i] + s[i..i + |sep|] + rest;
  }

  /** No part still contains the separator. */
  lemma {:induction false} SplitPartsFree(s: string, sep: string)
    requires |sep| > 0
    decreases |s|
    ensures forall k :: 0 <= k < |Split(s, sep)| ==> !Contains(Split(s, sep)[k], sep)
  {
    match IndexOf(s, sep, 0)
    case None =>
      IndexOfFinds(s, sep);
    case Some(i) =>
      var rest := s[i + |sep|..];
      SplitPartsFree(rest, sep);
      var head := s[..i];
      ContainsAt(head, sep);
      forall j: nat | j <= |head|
        ensures !At(head, sep, j)
      {
        if At(head, sep, j) {
          assert s[j..j + |sep|] == head[j..j + |sep|];
          assert At(s, sep, j);
        }
      }
      assert Split(s, sep) == [head] + Split(rest, sep);
  }

  /** A string without the separator splits into itself alone. */
  lemma SplitWithoutSep(s: string, sep: string)
    requires |sep| > 0
    requires !Contains(s, sep)
    ensures Split(s, sep) == [s]
  {
    IndexOfFinds(s, sep);
  }

  /** A string holding the separator splits into at least two parts. */
  lemma SplitWithSep(s: string, sep: string)
    requires |sep| > 0
    requires Contains(s, sep)
    ensures |Split(s, sep)| >= 2
  {
    IndexOfFinds(s, sep);
    var i := IndexOf(s, sep, 0).value;
    assert Split(s, sep) == [s[..i]] + Split(s[i + |sep|..], sep);
  }

  /** The first line of `s`: everything before the first newline (`.` does not match `\n`). */
  function LineOf(s: string): (l: string)
    ensures |l| <= |s| && l == s[..|l|]
    ensures '\n' !in l
    ensures |l| < |s| ==> s[|l|] == '\n'
  {
    if s == [] || s[0] == '\n' then [] else [s[0]] + LineOf(s[1..])
  }

  /** The last index of `c` in `s`, if any. */
  function LastIndex(s: string, c: char): (r: Option<nat>)
    ensures r.Some? ==> r.value < |s| && s[r.value] == c
    ensures r.Some? ==> forall j :: r.value < j < |s| ==> s[j] != c
    ensures r.None? ==> c !in s
  {
    if s == [] then None
    else if s[|s| - 1] == c then Some(|s| - 1)
    else LastIndex(s[..|s| - 1], c)
  }

  /**
   * One match of `<open>(.*)<close>`: the whole match is `s[start..close + 1]`
   * and the captured group is `s[start + |open|..close]`.
   */
  datatype Match = Match(start: nat, close: nat)

  /**
   * The match that starts at `p`, if one does: `open` at `p`, then the greedy
   * `.*` runs to the last `close` before the end of the line.
   */
  function MatchAt(s: string, p: nat, open: string, close: char): (r: Option<nat>)
    requires p <= |s|
    ensures r.Some? ==> p + |open| <= r.value < |s| && s[r.value] == close
  {
    if !At(s, open, p) then None
    else
      match LastIndex(LineOf(s[p + |open|..]), close)
      case None => None
      case Some(j) => Some(p + |open| + j)
  }

  /** The leftmost match at or after `from`, as `regexp.FindStringSubmatchIndex` finds it. */
  function FirstMatch(s: string, from: nat, open: string, close: char): (r: Option<Match>)
    requires from <= |s|
    decreases |s| - from
    ensures r.Some? ==> from <= r.value.start && r.value.start + |open| <= r.value.close < |s|
  {
    match MatchAt(s, from, open, close)
    case Some(q) => Some(Match(from, q))
    case None => if from == |s| then None else FirstMatch(s, from + 1, open, close)
  }

  /** `regexp.FindAllStringSubmatch(s, -1)`: successive non-overlapping matches. */
  function Matches(s: string, from: nat, open: string, close: char): (ms: seq<Match>)
    requires from <= |s|
    decreases |s| - from
    ensures forall k :: 0 <= k < |ms| ==> from <= ms[k].start && ms[k].start + |open| <= ms[k].close < |s|
  {
    match FirstMatch(s, from, open, close)
    case None => []
    case Some(m) => [m] + Matches(s, m.close + 1, open, close)
  }

  /** The captured group of the first match of `<open>(.*)<close>` in `s`, if any. */
  function Capture(s: string, open: string, close: char): Option<string> {
    match FirstMatch(s, 0, open, close)
    case None => None
    case Some(m) => Some(s[m.start + |open|..m.close])
  }

  /** A captured group is written in `s` between `open` and `close`, and holds no newline. */
  lemma CaptureSound(s: string, open: string, close: char)
    requires Capture(s, open, close).Some?
    ensures Contains(s, open + Capture(s, open, close).value + [close])
    ensures '\n' !in Capture(s, open, close).value
  {
    var m := FirstMatch(s, 0, open, close).value;
    FirstMatchAt(s, 0, open, close);
    MatchAtShape(s, m.start, open, close);
    var g := s[m.start + |open|..m.close];
    assert Capture(s, open, close).value == g;
    assert At(s, open + g + [close], m.start);
    ContainsAt(s, open + g + [close]);
  }

  /** A match at `p` spells `open`, a newline-free group, then `close`. */
  lemma MatchAtShape(s: string, p: nat, open: string, close: char)
    requires p <= |s| && MatchAt(s, p, open, close).Some?
    ensures var q := MatchAt(s, p, open, close).value;
      s[p..q + 1] == open + s[p + |open|..q] + [close] && '\n' !in s[p + |open|..q]
  {
    var q := MatchAt(s, p, open, close).value;
    var rest := s[p + |open|..];
    var line := LineOf(rest);
    var j := LastIndex(line, close).value;
    assert q == p + |open| + j;
    assert line == rest[..|line|];
    assert rest[..j] == line[..j];
    assert s[p + |open|..q] == rest[..j];
    assert s[p..p + |open|] == open;
    assert s[p..q + 1] == s[p..q] + [s[q]];
    assert s[p..q] == s[p..p + |open|] + s[p + |open|..q];
  }

  /** The match `FirstMatch` returns is the one `MatchAt` finds at its start. */
  lemma {:induction false} FirstMatchAt(s: string, from: nat, open: string, close: char)
    requires from <= |s|
    requires FirstMatch(s, from, open, close).Some?
    decreases |s| - from
    ensures MatchAt(s, FirstMatch(s, from, open, close).value.start, open, close)
         == Some(FirstMatch(s, from, open, close).value.close)
  {
    if MatchAt(s, from, open, close).None? {
      FirstMatchAt(s, from + 1, open, close);
    }
  }

  /** A clause written `<open>t<close>` on one line captures exactly `t`. */
  lemma CaptureClause(open: string, t: string, close: char)
    requires '\n' !in t && close != '\n'
    ensures Capture(open + t + [close], open, close) == Some(t)
  {
    var s := open + t + [close];
    assert At(s, open, 0) by {
      assert s[..|open|] == open;
    }
    var rest := s[|open|..];
    assert rest == t + [close];
    LineOfWhole(rest);
    assert LastIndex(rest, close) == Some(|t|);
    assert MatchAt(s, 0, open, close) == Some(|open| + |t|);
    assert s[|open|..|open| + |t|] == t;
  }

  /** A string without newlines is its own first line. */
  lemma {:induction false} LineOfWhole(s: string)
    requires '\n' !in s
    ensures LineOf(s) == s
  {
    if s != [] {
      LineOfWhole(s[1..]);
    }
  }
}

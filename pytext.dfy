/**
 * The Python string operations the commit-graph code relies on:
 * `str.isspace` for one character, `str.strip()`, `str.split()` with no
 * argument (split on runs of whitespace) and `str.split(sep)` with a
 * one-character separator. Strings are sequences of code points.
 *
 * The functions carry only the bounds their callers need to be well
 * defined; what they compute is stated by the lemmas after each of them.
 */
module PyText {

  /** Python's `str.isspace` for a single code point. */
  predicate IsSpace(c: char) {
    || ('\t' <= c <= '\r')
    || ('\U{1C}' <= c <= '\U{1F}')
    || c == ' '
    || c == '\U{85}'
    || c == '\U{A0}'
    || c == '\U{1680}'
    || ('\U{2000}' <= c <= '\U{200A}')
    || c == '\U{2028}'
    || c == '\U{2029}'
    || c == '\U{202F}'
    || c == '\U{205F}'
    || c == '\U{3000}'
  }

  predicate AllSpace(s: string) {
    forall i :: 0 <= i < |s| ==> IsSpace(s[i])
  }

  predicate NoSpace(s: string) {
    forall i :: 0 <= i < |s| ==> !IsSpace(s[i])
  }

  /** What `str.split()` can yield: a non-empty run without whitespace. */
  predicate IsToken(s: string) {
    s != [] && NoSpace(s)
  }

  /** Length of the whitespace run at the start of `s`. */
  function LeadingSpace(s: string): (n: nat)
    ensures n <= |s|
  {
    if s != [] && IsSpace(s[0]) then 1 + LeadingSpace(s[1..]) else 0
  }

  /** `LeadingSpace` stops at the first non-whitespace character. */
  lemma {:induction false} LeadingSpaceSpec(s: string)
    ensures forall i :: 0 <= i < LeadingSpace(s) ==> IsSpace(s[i])
    ensures LeadingSpace(s) == |s| || !IsSpace(s[LeadingSpace(s)])
  {
    if s != [] && IsSpace(s[0]) {
      LeadingSpaceSpec(s[1..]);
    }
  }

  /** Length of the whitespace run at the end of `s`. */
  function TrailingSpace(s: string): (n: nat)
    ensures n <= |s|
  {
    if s != [] && IsSpace(s[|s| - 1]) then 1 + TrailingSpace(s[..|s| - 1]) else 0
  }

  /** `TrailingSpace` stops at the last non-whitespace character. */
  lemma {:induction false} TrailingSpaceSpec(s: string)
    ensures forall i :: |s| - TrailingSpace(s) <= i < |s| ==> IsSpace(s[i])
    ensures TrailingSpace(s) == |s| || !IsSpace(s[|s| - TrailingSpace(s) - 1])
  {
    if s != [] && IsSpace(s[|s| - 1]) {
      TrailingSpaceSpec(s[..|s| - 1]);
    }
  }

  /**
   * Python's `str.strip()`: `s` without its leading and trailing whitespace,
   * and empty when the two runs together cover all of `s`.
   */
  function Strip(s: string): (r: string)
    ensures |r| <= |s|
  {
    var a, b := LeadingSpace(s), TrailingSpace(s);
    if a + b >= |s| then [] else s[a..|s| - b]
  }

  /**
   * When `s` is not all whitespace, its leading and trailing whitespace
   * runs are apart, each stopping at a non-whitespace character.
   */
  lemma {:induction false} SpaceRunsApart(s: string)
    ensures LeadingSpace(s) < |s| ==>
      LeadingSpace(s) + TrailingSpace(s) < |s| &&
      !IsSpace(s[LeadingSpace(s)]) && !IsSpace(s[|s| - TrailingSpace(s) - 1])
  {
    LeadingSpaceSpec(s);
    TrailingSpaceSpec(s);
  }

  /**
   * What `strip()` returns is a slice of `s` that starts after the leading
   * whitespace, and neither of its ends is whitespace.
   */
  lemma {:induction false} StripSpec(s: string)
    ensures LeadingSpace(s) + |Strip(s)| <= |s|
    ensures Strip(s) == s[LeadingSpace(s)..LeadingSpace(s) + |Strip(s)|]
    ensures Strip(s) != [] ==> !IsSpace(Strip(s)[0]) && !IsSpace(Strip(s)[|Strip(s)| - 1])
  {
    var a := LeadingSpace(s);
    SpaceRunsApart(s);
    if a < |s| {
      var b := TrailingSpace(s);
      var r := s[a..|s| - b];
      assert Strip(s) == r;
      assert r[0] == s[a] && r[|r| - 1] == s[|s| - b - 1];
    }
  }

  /** Everything `strip()` removes, before and after, is whitespace. */
  lemma {:induction false} StripRemovesSpace(s: string)
    ensures LeadingSpace(s) + |Strip(s)| <= |s|
    ensures forall i :: 0 <= i < LeadingSpace(s) ==> IsSpace(s[i])
    ensures forall i :: LeadingSpace(s) + |Strip(s)| <= i < |s| ==> IsSpace(s[i])
  {
    var a := LeadingSpace(s);
    LeadingSpaceSpec(s);
    if a < |s| {
      var b := TrailingSpace(s);
      TrailingSpaceSpec(s);
      assert a < |s| - b;
      assert |Strip(s)| == |s| - b - a;
    }
  }

  /** `strip()` returns the empty string exactly when `s` is all whitespace. */
  lemma {:induction false} StripEmpty(s: string)
    ensures Strip(s) == [] <==> AllSpace(s)
  {
    var a := LeadingSpace(s);
    LeadingSpaceSpec(s);
    if a < |s| {
      TrailingSpaceSpec(s);
      assert a < |s| - TrailingSpace(s);
      assert !IsSpace(s[a]);
    }
  }

  /** `LeadingSpace` is the position of the first non-whitespace, or `|s|`. */
  lemma {:induction false} LeadingSpaceUnique(s: string, n: nat)
    requires n <= |s|
    requires forall i :: 0 <= i < n ==> IsSpace(s[i])
    requires n == |s| || !IsSpace(s[n])
    ensures LeadingSpace(s) == n
  {
    LeadingSpaceSpec(s);
  }

  /** `TrailingSpace` is the length of the longest whitespace suffix. */
  lemma {:induction false} TrailingSpaceUnique(s: string, n: nat)
    requires n <= |s|
    requires forall i :: |s| - n <= i < |s| ==> IsSpace(s[i])
    requires n == |s| || !IsSpace(s[|s| - n - 1])
    ensures TrailingSpace(s) == n
  {
    TrailingSpaceSpec(s);
  }

  /**
   * `strip()` is determined by what it removes: whatever sits between a
   * whitespace prefix and a whitespace suffix and has non-whitespace ends
   * (or is empty) is what `strip()` returns.
   */
  lemma {:induction false} StripUnique(p: string, m: string, q: string)
    requires AllSpace(p) && AllSpace(q)
    requires m != [] ==> !IsSpace(m[0]) && !IsSpace(m[|m| - 1])
    ensures Strip(p + m + q) == m
  {
    var s := p + m + q;
    assert forall i :: 0 <= i < |p| ==> s[i] == p[i];
    assert forall i :: |p| + |m| <= i < |s| ==> s[i] == q[i - |p| - |m|];
    if m == [] {
      StripEmpty(s);
    } else {
      assert s[|p|] == m[0];
      assert s[|p| + |m| - 1] == m[|m| - 1];
      LeadingSpaceUnique(s, |p|);
      TrailingSpaceUnique(s, |q|);
      assert s[|p|..|p| + |m|] == m;
    }
  }

  /** Stripping twice is stripping once. */
  lemma {:induction false} StripIdempotent(s: string)
    ensures Strip(Strip(s)) == Strip(s)
  {
    var r := Strip(s);
    StripSpec(s);
    StripUnique([], r, []);
    assert [] + r + [] == r;
  }

  /** Length of the run of non-whitespace at the start of `s`. */
  function WordLength(s: string): (n: nat)
    ensures n <= |s|
    ensures s != [] && !IsSpace(s[0]) ==> n > 0
  {
    if s != [] && !IsSpace(s[0]) then 1 + WordLength(s[1..]) else 0
  }

  /** `WordLength` stops at the first whitespace character. */
  lemma {:induction false} WordLengthSpec(s: string)
    ensures NoSpace(s[..WordLength(s)])
    ensures WordLength(s) == |s| || IsSpace(s[WordLength(s)])
  {
    if s != [] && !IsSpace(s[0]) {
      WordLengthSpec(s[1..]);
      assert s[..WordLength(s)] == [s[0]] + s[1..][..WordLength(s[1..])];
    }
  }

  /** `WordLength` is the position of the first whitespace, or `|s|`. */
  lemma {:induction false} WordLengthUnique(s: string, n: nat)
    requires n <= |s| && NoSpace(s[..n])
    requires n == |s| || IsSpace(s[n])
    ensures WordLength(s) == n
  {
    var w := WordLength(s);
    WordLengthSpec(s);
    assert forall i :: 0 <= i < n ==> !IsSpace(s[i]) by {
      forall i | 0 <= i < n ensures !IsSpace(s[i]) { assert s[..n][i] == s[i]; }
    }
    assert forall i :: 0 <= i < w ==> !IsSpace(s[i]) by {
      forall i | 0 <= i < w ensures !IsSpace(s[i]) { assert s[..w][i] == s[i]; }
    }
  }

  /**
   * Python's `str.split()` with no argument: the maximal runs of
   * non-whitespace, in order.
   */
  function Split(s: string): seq<string>
    decreases |s|
  {
    if s == [] then []
    else if IsSpace(s[0]) then Split(s[1..])
    else
      var n := WordLength(s);
      [s[..n]] + Split(s[n..])
  }

  /** Every piece `split()` yields is a token. */
  lemma {:induction false} SplitTokens(s: string)
    ensures forall i :: 0 <= i < |Split(s)| ==> IsToken(Split(s)[i])
    decreases |s|
  {
    if s != [] {
      if IsSpace(s[0]) {
        SplitTokens(s[1..]);
      } else {
        WordLengthSpec(s);
        SplitTokens(s[WordLength(s)..]);
      }
    }
  }

  /** Leading whitespace contributes no token. */
  lemma {:induction false} SplitSkipsSpace(p: string, s: string)
    requires AllSpace(p)
    ensures Split(p + s) == Split(s)
    decreases |p|
  {
    if p == [] {
      assert p + s == s;
    } else {
      assert (p + s)[0] == p[0];
      assert (p + s)[1..] == p[1..] + s;
      SplitSkipsSpace(p[1..], s);
    }
  }

  /** A token followed by whitespace (or nothing) is split off whole. */
  lemma {:induction false} SplitToken(t: string, s: string)
    requires IsToken(t)
    requires s == [] || IsSpace(s[0])
    ensures Split(t + s) == [t] + Split(s)
  {
    var u := t + s;
    assert u[..|t|] == t;
    if |t| < |u| { assert u[|t|] == s[0]; }
    WordLengthUnique(u, |t|);
    assert u[|t|..] == s;
  }

  /** Trailing whitespace contributes no token. */
  lemma {:induction false} SplitIgnoresTrailingSpace(m: string, q: string)
    requires AllSpace(q)
    ensures Split(m + q) == Split(m)
    decreases |m|
  {
    var u := m + q;
    if m == [] {
      SplitSkipsSpace(q, []);
      assert q + [] == q && u == q;
    } else if IsSpace(m[0]) {
      assert u[1..] == m[1..] + q;
      SplitIgnoresTrailingSpace(m[1..], q);
    } else {
      var n := WordLength(m);
      WordLengthSpec(m);
      assert u[..n] == m[..n];
      if n < |m| {
        assert u[n] == m[n];
      } else if q != [] {
        assert u[n] == q[0];
      }
      WordLengthUnique(u, n);
      assert u[n..] == m[n..] + q;
      SplitIgnoresTrailingSpace(m[n..], q);
    }
  }

  /** Dropping a whitespace prefix does not change the tokens. */
  lemma {:induction false} SplitDropLeading(s: string, a: nat)
    requires a <= |s|
    requires forall i :: 0 <= i < a ==> IsSpace(s[i])
    ensures Split(s[a..]) == Split(s)
  {
    if a > 0 {
      SplitDropLeading(s[1..], a - 1);
      assert s[1..][a - 1..] == s[a..];
    }
  }

  /** Dropping a whitespace suffix does not change the tokens. */
  lemma {:induction false} SplitDropTrailing(s: string, k: nat)
    requires k <= |s|
    requires forall i :: k <= i < |s| ==> IsSpace(s[i])
    ensures Split(s[..k]) == Split(s)
  {
    var q := s[k..];
    assert AllSpace(q) by {
      assert forall i :: 0 <= i < |q| ==> q[i] == s[k + i];
    }
    assert s[..k] + q == s;
    SplitIgnoresTrailingSpace(s[..k], q);
  }

  /** `line.strip().split()` gives the same tokens as `line.split()`. */
  lemma {:induction false} SplitStrip(s: string)
    ensures Split(Strip(s)) == Split(s)
  {
    var a := LeadingSpace(s);
    var r := Strip(s);
    StripSpec(s);
    StripRemovesSpace(s);
    var t := s[a..];
    SplitDropLeading(s, a);
    assert r == t[..|r|];
    assert forall i :: |r| <= i < |t| ==> IsSpace(t[i]) by {
      assert forall i :: |r| <= i < |t| ==> t[i] == s[a + i];
    }
    SplitDropTrailing(t, |r|);
  }

  /** `" ".join(ts)`. */
  function JoinSpaced(ts: seq<string>): string {
    if ts == [] then []
    else if |ts| == 1 then ts[0]
    else ts[0] + " " + JoinSpaced(ts[1..])
  }

  /** Splitting tokens joined by single spaces gives the tokens back. */
  lemma {:induction false} SplitJoinSpaced(ts: seq<string>)
    requires forall i :: 0 <= i < |ts| ==> IsToken(ts[i])
    ensures Split(JoinSpaced(ts)) == ts
  {
    if |ts| == 1 {
      SplitToken(ts[0], []);
      assert ts[0] + [] == ts[0];
    } else if |ts| > 1 {
      var rest := JoinSpaced(ts[1..]);
      SplitToken(ts[0], " " + rest);
      assert ts[0] + " " + rest == ts[0] + (" " + rest);
      assert (" " + rest)[1..] == rest;
      SplitJoinSpaced(ts[1..]);
    }
  }

  /** Position of the first `c` in `s`, or `|s|` when there is none. */
  function Find(s: string, c: char): (n: nat)
    ensures n <= |s|
  {
    if s == [] || s[0] == c then 0 else 1 + Find(s[1..], c)
  }

  /** `Find` stops at the first `c`. */
  lemma {:induction false} FindSpec(s: string, c: char)
    ensures c !in s[..Find(s, c)]
    ensures Find(s, c) < |s| ==> s[Find(s, c)] == c
  {
    if s != [] && s[0] != c {
      FindSpec(s[1..], c);
      assert s[..Find(s, c)] == [s[0]] + s[1..][..Find(s[1..], c)];
    }
  }

  /** `Find` is the position of the first `c`, or `|s|`. */
  lemma {:induction false} FindUnique(s: string, c: char, n: nat)
    requires n <= |s| && c !in s[..n]
    requires n < |s| ==> s[n] == c
    ensures Find(s, c) == n
  {
    var f := Find(s, c);
    FindSpec(s, c);
    assert forall i :: 0 <= i < n ==> s[i] != c by {
      forall i | 0 <= i < n ensures s[i] != c { assert s[..n][i] == s[i]; }
    }
    assert forall i :: 0 <= i < f ==> s[i] != c by {
      forall i | 0 <= i < f ensures s[i] != c { assert s[..f][i] == s[i]; }
    }
  }

  /**
   * Python's `str.split(sep)` for a one-character separator: the pieces
   * between separators, empty ones included. There is always at least one.
   */
  function SplitOn(s: string, sep: char): (r: seq<string>)
    ensures |r| >= 1
    decreases |s|
  {
    var n := Find(s, sep);
    if n == |s| then [s]
    else [s[..n]] + SplitOn(s[n + 1..], sep)
  }

  /** There is one more piece than there are separators. */
  lemma {:induction false} SplitOnCount(s: string, sep: char)
    ensures |SplitOn(s, sep)| == multiset(s)[sep] + 1
    decreases |s|
  {
    var n := Find(s, sep);
    FindSpec(s, sep);
    if n < |s| {
      SplitOnCount(s[n + 1..], sep);
      assert s == s[..n] + [sep] + s[n + 1..];
    } else {
      assert s[..n] == s;
    }
  }

  /** No piece of `SplitOn(s, sep)` holds the separator. */
  lemma {:induction false} SplitOnPieces(s: string, sep: char)
    ensures forall i :: 0 <= i < |SplitOn(s, sep)| ==> sep !in SplitOn(s, sep)[i]
    decreases |s|
  {
    var n := Find(s, sep);
    FindSpec(s, sep);
    if n < |s| {
      SplitOnPieces(s[n + 1..], sep);
    } else {
      assert s[..n] == s;
    }
  }

  /** `sep.join(parts)`. */
  function JoinOn(parts: seq<string>, sep: char): string {
    if parts == [] then []
    else if |parts| == 1 then parts[0]
    else parts[0] + [sep] + JoinOn(parts[1..], sep)
  }

  /** Joining the pieces with the separator rebuilds the string. */
  lemma {:induction false} JoinSplitOn(s: string, sep: char)
    ensures JoinOn(SplitOn(s, sep), sep) == s
    decreases |s|
  {
    var n := Find(s, sep);
    FindSpec(s, sep);
    if n < |s| {
      JoinSplitOn(s[n + 1..], sep);
      assert s == s[..n] + [sep] + s[n + 1..];
    }
  }

  /** Splitting a join of separator-free pieces gives the pieces back. */
  lemma {:induction false} SplitOnJoin(parts: seq<string>, sep: char)
    requires |parts| >= 1
    requires forall i :: 0 <= i < |parts| ==> sep !in parts[i]
    ensures SplitOn(JoinOn(parts, sep), sep) == parts
  {
    var s := JoinOn(parts, sep);
    var p := parts[0];
    if |parts| == 1 {
      FindUnique(p, sep, |p|);
    } else {
      var rest := JoinOn(parts[1..], sep);
      assert s == p + [sep] + rest;
      assert s[..|p|] == p;
      assert s[|p|] == sep;
      FindUnique(s, sep, |p|);
      assert s[|p| + 1..] == rest;
      SplitOnJoin(parts[1..], sep);
    }
  }

  /** Joining two non-empty lists of pieces puts one separator between them. */
  lemma {:induction false} JoinOnAppend(xs: seq<string>, ys: seq<string>, sep: char)
    requires |xs| >= 1 && |ys| >= 1
    ensures JoinOn(xs + ys, sep) == JoinOn(xs, sep) + [sep] + JoinOn(ys, sep)
  {
    if |xs| > 1 {
      assert (xs + ys)[1..] == xs[1..] + ys;
      JoinOnAppend(xs[1..], ys, sep);
    }
  }

  /**
   * Splitting `a + sep + b` splits `a` and `b` separately: the separator
   * closes the last piece of `a` and opens the first piece of `b`.
   */
  lemma {:induction false} SplitOnConcat(a: string, b: string, sep: char)
    ensures SplitOn(a + [sep] + b, sep) == SplitOn(a, sep) + SplitOn(b, sep)
  {
    var xs, ys := SplitOn(a, sep), SplitOn(b, sep);
    SplitOnPieces(a, sep);
    SplitOnPieces(b, sep);
    JoinSplitOn(a, sep);
    JoinSplitOn(b, sep);
    JoinOnAppend(xs, ys, sep);
    SplitOnJoin(xs + ys, sep);
  }
}

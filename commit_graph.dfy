/**
 * The commit graph that `GitManagerApp.show_branch_graph` builds from the
 * text printed by `git log --all --pretty=format:"%h %p"`: one line per
 * commit, the abbreviated hash first and then the abbreviated hashes of its
 * parents. Every line `c p1 ... pn` with at least one parent yields the edges
 * `(p1, c), ..., (pn, c)`; lines are taken in order, and nothing is sorted,
 * deduplicated or validated.
 */
module CommitGraph {
  import opened PyText

  /** One `(parent, child)` tuple of the `edges` list. */
  datatype Edge = Edge(parent: string, child: string)

  /** The edges from each of `parents` to `child`, appended in parent order. */
  function ParentEdges(parents: seq<string>, child: string): seq<Edge> {
    if parents == [] then []
    else ParentEdges(parents[..|parents| - 1], child) + [Edge(parents[|parents| - 1], child)]
  }

  /** The `k`-th appended edge comes from the `k`-th parent. */
  lemma {:induction false} ParentEdgesAt(parents: seq<string>, child: string)
    ensures |ParentEdges(parents, child)| == |parents|
    ensures forall k :: 0 <= k < |parents| ==> ParentEdges(parents, child)[k] == Edge(parents[k], child)
  {
    if parents != [] {
      ParentEdgesAt(parents[..|parents| - 1], child);
    }
  }

  /**
   * What the loop body appends for `parts = line.strip().split()`: one edge
   * per element of `parts[1:]` when `len(parts) > 1`, nothing otherwise.
   */
  function PartsEdges(parts: seq<string>): seq<Edge> {
    if |parts| > 1 then ParentEdges(parts[1..], parts[0]) else []
  }

  /** The edges one line of the log contributes. */
  function LineEdges(line: string): seq<Edge> {
    PartsEdges(Split(Strip(line)))
  }

  /** Number of parent tokens on a line: every token after the first. */
  function ParentCount(line: string): nat {
    if |Split(line)| > 1 then |Split(line)| - 1 else 0
  }

  /**
   * A line `c p1 ... pn` contributes exactly `(p1, c), ..., (pn, c)`, in that
   * order; a blank line or a commit without parents contributes nothing.
   * Stripping the line first changes none of this.
   */
  lemma {:induction false} LineContribution(line: string)
    ensures |LineEdges(line)| == ParentCount(line)
    ensures forall k :: 0 <= k < |LineEdges(line)| ==>
      LineEdges(line)[k] == Edge(Split(line)[k + 1], Split(line)[0])
  {
    var parts := Split(Strip(line));
    SplitStrip(line);
    if |parts| > 1 {
      ParentEdgesAt(parts[1..], parts[0]);
    }
  }

  /** `f` applied to every element of `xs`, the results concatenated in order. */
  function ConcatMap<A, B>(f: A -> seq<B>, xs: seq<A>): seq<B> {
    if xs == [] then [] else f(xs[0]) + ConcatMap(f, xs[1..])
  }

  /** A flat-map distributes over concatenation. */
  lemma {:induction false} ConcatMapAppend<A, B>(f: A -> seq<B>, xs: seq<A>, ys: seq<A>)
    ensures ConcatMap(f, xs + ys) == ConcatMap(f, xs) + ConcatMap(f, ys)
  {
    if xs == [] {
      assert xs + ys == ys;
    } else {
      assert (xs + ys)[0] == xs[0];
      assert (xs + ys)[1..] == xs[1..] + ys;
      ConcatMapAppend(f, xs[1..], ys);
    }
  }

  /** An element `f` maps to nothing leaves the flat-map as it was. */
  lemma {:induction false} ConcatMapSkip<A, B>(f: A -> seq<B>, xs: seq<A>, x: A, ys: seq<A>)
    requires f(x) == []
    ensures ConcatMap(f, xs + [x] + ys) == ConcatMap(f, xs) + ConcatMap(f, ys)
  {
    ConcatMapAppend(f, xs + [x], ys);
    ConcatMapAppend(f, xs, [x]);
    assert ConcatMap(f, [x]) == f(x) + ConcatMap(f, [x][1..]);
    assert [x][1..] == [];
  }

  /** An element of a flat-map comes from the image of some element. */
  lemma {:induction false} ConcatMapMember<A, B>(f: A -> seq<B>, xs: seq<A>, y: B)
    ensures y in ConcatMap(f, xs) <==> exists x :: x in xs && y in f(x)
  {
    if xs != [] {
      ConcatMapMember(f, xs[1..], y);
      assert forall x :: x in xs <==> x == xs[0] || x in xs[1..] by {
        assert xs == [xs[0]] + xs[1..];
      }
    }
  }

  /** The edges of a sequence of lines, line after line. */
  function EdgesOfLines(lines: seq<string>): seq<Edge> {
    ConcatMap(LineEdges, lines)
  }

  /** The edges of the whole `git log` output, split on `'\n'`. */
  function EdgesOfText(output: string): seq<Edge> {
    EdgesOfLines(SplitOn(output, '\n'))
  }

  /**
   * The extraction of `show_branch_graph`: `edges` starts empty and each
   * line of `output.split('\n')` appends one edge per parent token.
   */
  method ExtractEdges(output: string) returns (edges: seq<Edge>)
    ensures edges == EdgesOfText(output)
  {
    var lines := SplitOn(output, '\n');
    edges := ExtractEdgesOfLines(lines);
  }

  /**
   * The two nested loops of the extraction, over the lines and over
   * `parts[1:]`, once the output is split into lines.
   */
  method ExtractEdgesOfLines(lines: seq<string>) returns (edges: seq<Edge>)
    ensures edges == EdgesOfLines(lines)
  {
    edges := [];
    for i := 0 to |lines|
      invariant edges == EdgesOfLines(lines[..i])
    {
      var parts := Split(Strip(lines[i]));
      edges := AppendLineEdges(edges, parts);
      EdgesOfLinesStep(lines, i);
    }
    assert lines[..|lines|] == lines;
  }

  /**
   * The body of the loop over the lines, for `parts = line.strip().split()`:
   * when there is more than one token, the loop over `parts[1:]` appends
   * one edge per parent token.
   */
  method AppendLineEdges(edges: seq<Edge>, parts: seq<string>) returns (extended: seq<Edge>)
    ensures extended == edges + PartsEdges(parts)
  {
    extended := edges;
    if |parts| > 1 {
      var parentHashes := parts[1..];
      for j := 0 to |parentHashes|
        invariant extended == edges + ParentEdges(parentHashes[..j], parts[0])
      {
        ParentEdgesStep(parentHashes, j, parts[0]);
        extended := extended + [Edge(parentHashes[j], parts[0])];
      }
      assert parentHashes[..|parentHashes|] == parentHashes;
    }
  }

  /** One more pass of the inner loop appends the edge of parent `j`. */
  lemma {:induction false} ParentEdgesStep(parents: seq<string>, j: nat, child: string)
    requires j < |parents|
    ensures ParentEdges(parents[..j + 1], child) == ParentEdges(parents[..j], child) + [Edge(parents[j], child)]
  {
    assert parents[..j + 1][..j] == parents[..j];
  }

  /** The lines up to `i + 1` add the edges of line `i`. */
  lemma {:induction false} EdgesOfLinesStep(lines: seq<string>, i: nat)
    requires i < |lines|
    ensures EdgesOfLines(lines[..i + 1]) == EdgesOfLines(lines[..i]) + LineEdges(lines[i])
  {
    assert lines[..i + 1] == lines[..i] + [lines[i]];
    ConcatMapAppend(LineEdges, lines[..i], [lines[i]]);
    assert ConcatMap(LineEdges, [lines[i]]) == LineEdges(lines[i]) + ConcatMap(LineEdges, []);
  }

  /** A line in front of the others contributes its edges first. */
  lemma {:induction false} EdgesOfLinesCons(line: string, rest: seq<string>)
    ensures EdgesOfLines([line] + rest) == LineEdges(line) + EdgesOfLines(rest)
  {
    assert ([line] + rest)[1..] == rest;
  }

  /** A whitespace-only line contributes no edge. */
  lemma {:induction false} BlankLineEdges(blank: string)
    requires AllSpace(blank)
    ensures LineEdges(blank) == []
  {
    StripEmpty(blank);
  }

  /**
   * A blank or whitespace-only line anywhere in the log contributes no
   * edge and leaves the lines around it as they were.
   */
  lemma {:induction false} BlankLineIgnored(before: seq<string>, blank: string, after: seq<string>)
    requires AllSpace(blank)
    ensures EdgesOfLines(before + [blank] + after) == EdgesOfLines(before) + EdgesOfLines(after)
  {
    BlankLineEdges(blank);
    ConcatMapSkip(LineEdges, before, blank, after);
  }

  /** Extraction distributes over concatenation of line sequences. */
  lemma {:induction false} EdgesOfLinesAppend(a: seq<string>, b: seq<string>)
    ensures EdgesOfLines(a + b) == EdgesOfLines(a) + EdgesOfLines(b)
  {
    ConcatMapAppend(LineEdges, a, b);
  }

  /** Total number of parent tokens over all lines. */
  function TotalParents(lines: seq<string>): nat {
    if lines == [] then 0 else ParentCount(lines[0]) + TotalParents(lines[1..])
  }

  /** There is one edge per parent token, summed over the lines. */
  lemma {:induction false} EdgeCount(lines: seq<string>)
    ensures |EdgesOfLines(lines)| == TotalParents(lines)
  {
    if lines != [] {
      LineContribution(lines[0]);
      EdgeCount(lines[1..]);
    }
  }

  /** `e` is one of the edges the line `line` contributes. */
  predicate ProducedBy(e: Edge, line: string) {
    var parts := Split(line);
    |parts| > 1 && e.child == parts[0] && e.parent in parts[1..]
  }

  /**
   * An edge is extracted exactly when some line has the edge's child as its
   * first token and the edge's parent among its other tokens.
   */
  lemma {:induction false} EdgeOrigin(lines: seq<string>, e: Edge)
    ensures e in EdgesOfLines(lines) <==> exists line :: line in lines && ProducedBy(e, line)
  {
    ConcatMapMember(LineEdges, lines, e);
    forall line | line in lines
      ensures e in LineEdges(line) <==> ProducedBy(e, line)
    {
      LineEdgeOrigin(line, e);
    }
  }

  /** Within one line: an edge comes from it exactly when `ProducedBy` holds. */
  lemma {:induction false} LineEdgeOrigin(line: string, e: Edge)
    ensures e in LineEdges(line) <==> ProducedBy(e, line)
  {
    var parts := Split(line);
    LineContribution(line);
    if e in LineEdges(line) {
      var k :| 0 <= k < |LineEdges(line)| && LineEdges(line)[k] == e;
      assert parts[1..][k] == parts[k + 1];
    }
    if ProducedBy(e, line) {
      var k :| 0 <= k < |parts[1..]| && parts[1..][k] == e.parent;
      assert LineEdges(line)[k] == e;
    }
  }

  /** Both ends of every extracted edge are tokens: non-empty, no whitespace. */
  lemma {:induction false} EdgeEndpoints(lines: seq<string>, e: Edge)
    requires e in EdgesOfLines(lines)
    ensures IsToken(e.parent) && IsToken(e.child)
  {
    EdgeOrigin(lines, e);
    var line :| line in lines && ProducedBy(e, line);
    var parts := Split(line);
    SplitTokens(line);
    var k :| 0 <= k < |parts[1..]| && parts[1..][k] == e.parent;
    assert parts[1..][k] == parts[k + 1];
  }

  /** Splitting the text at a newline splits the edge list there. */
  lemma {:induction false} EdgesOfTextConcat(a: string, b: string)
    ensures EdgesOfText(a + "\n" + b) == EdgesOfText(a) + EdgesOfText(b)
  {
    SplitOnConcat(a, b, '\n');
    EdgesOfLinesAppend(SplitOn(a, '\n'), SplitOn(b, '\n'));
  }

  /** Repeating the log repeats its edges: nothing is deduplicated. */
  lemma {:induction false} DuplicatedLog(output: string)
    ensures EdgesOfText(output + "\n" + output) == EdgesOfText(output) + EdgesOfText(output)
  {
    EdgesOfTextConcat(output, output);
  }
}

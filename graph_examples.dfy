/**
 * The commit graph of a few concrete `git log --pretty=format:"%h %p"`
 * outputs: a merge commit, a root commit and an empty log.
 */
module GraphExamples {
  import opened PyText
  import opened CommitGraph

  /** A line written as tokens joined by single spaces yields their edges. */
  lemma {:induction false} LineOfTokens(ts: seq<string>, line: string)
    requires forall i :: 0 <= i < |ts| ==> IsToken(ts[i])
    requires JoinSpaced(ts) == line
    ensures LineEdges(line) == PartsEdges(ts)
  {
    SplitJoinSpaced(ts);
    SplitStrip(line);
  }

  /** A text without a newline is a single line. */
  lemma {:induction false} OneLine(line: string)
    requires '\n' !in line
    ensures EdgesOfText(line) == LineEdges(line)
  {
    FindUnique(line, '\n', |line|);
    assert line[..|line|] == line;
    EdgesOfLinesCons(line, []);
    assert [line] + [] == [line];
  }

  /** The tokens of the merge-commit line. */
  lemma {:induction false} MergeCommitTokens()
    ensures JoinSpaced(["abc123", "def456", "ghi789"]) == "abc123 def456 ghi789"
    ensures IsToken("abc123") && IsToken("def456") && IsToken("ghi789")
    ensures '\n' !in "abc123 def456 ghi789"
  {
    var ts := ["abc123", "def456", "ghi789"];
    assert JoinSpaced(ts[2..]) == "ghi789";
    assert JoinSpaced(ts[1..]) == "def456 ghi789";
  }

  /** The edges of the merge-commit tokens. */
  lemma {:induction false} MergeCommitParts()
    ensures PartsEdges(["abc123", "def456", "ghi789"]) == [Edge("def456", "abc123"), Edge("ghi789", "abc123")]
  {
    var ts := ["abc123", "def456", "ghi789"];
    ParentEdgesAt(ts[1..], ts[0]);
  }

  /** A commit with two parents gives one edge per parent, in parent order. */
  lemma {:induction false} MergeCommitLine()
    ensures EdgesOfText("abc123 def456 ghi789") == [Edge("def456", "abc123"), Edge("ghi789", "abc123")]
  {
    MergeCommitTokens();
    LineOfTokens(["abc123", "def456", "ghi789"], "abc123 def456 ghi789");
    OneLine("abc123 def456 ghi789");
    MergeCommitParts();
  }

  /** A root commit has no parent, so its line gives no edge. */
  lemma {:induction false} RootCommitLine()
    ensures EdgesOfText("abc123") == []
  {
    LineOfTokens(["abc123"], "abc123");
    OneLine("abc123");
  }

  /** An empty log gives an empty edge list. */
  lemma {:induction false} EmptyLog()
    ensures EdgesOfText("") == []
  {
    OneLine("");
  }
}

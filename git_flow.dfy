/**
 * The decision rules of `GitManagerApp` around its git commands: how the
 * result of a command becomes the value `run_git_command` returns, how that
 * value routes the merge and rename actions, which remote a push goes to,
 * which `git log` command the branch graph asks for, and what the graph
 * shows.
 *
 * Running a command is not modelled: a method that runs one takes the
 * environment as a parameter `git`, the result the command produces.
 */
module GitFlow {
  import opened Wrappers
  import opened PyText
  import opened CommitGraph

  /**
   * What `subprocess.run` gave for a command: either the process ran and
   * ended with a return code and its captured output, or starting it
   * raised an exception with the given message.
   */
  datatype ProcessResult =
    | Completed(returncode: int, stdout: string, stderr: string)
    | LaunchFailed(reason: string)

  /**
   * The value `run_git_command` returns: the stripped standard output when
   * the command succeeded, `None` otherwise.
   */
  function RunGitCommand(p: ProcessResult): (output: Option<string>)
    ensures output.Some? <==> p.Completed? && p.returncode == 0
    ensures output.Some? ==> output.value == Strip(p.stdout)
  {
    if p.Completed? && p.returncode == 0 then Some(Strip(p.stdout)) else None
  }

  /**
   * The text of the error dialog `run_git_command` raises: the stripped
   * standard error of a failed command, or the message of the exception
   * that kept it from running. There is one exactly when the command
   * returns `None`.
   */
  function ErrorMessage(p: ProcessResult): (message: Option<string>)
    ensures message.Some? <==> RunGitCommand(p).None?
    ensures p.Completed? && p.returncode != 0 ==> message == Some(Strip(p.stderr))
    ensures p.LaunchFailed? ==> message == Some(p.reason)
  {
    match p
    case Completed(rc, _, err) => if rc == 0 then None else Some(Strip(err))
    case LaunchFailed(reason) => Some(reason)
  }

  /**
   * A successful command returns its output without surrounding
   * whitespace, holding the same words the process printed.
   */
  lemma {:induction false} RunGitCommandStripped(p: ProcessResult)
    requires RunGitCommand(p).Some?
    ensures var out := RunGitCommand(p).value;
      Strip(out) == out && Split(out) == Split(p.stdout) &&
      (out != [] ==> !IsSpace(out[0]) && !IsSpace(out[|out| - 1]))
  {
    StripIdempotent(p.stdout);
    SplitStrip(p.stdout);
    StripSpec(p.stdout);
  }

  /** Python truthiness of a `str or None`: present and non-empty. */
  predicate Truthy(output: Option<string>) {
    output.Some? && output.value != ""
  }

  /**
   * `if output:` after `run_git_command` holds exactly when the command
   * succeeded and printed something other than whitespace.
   */
  lemma {:induction false} TruthyOutput(p: ProcessResult)
    ensures Truthy(RunGitCommand(p)) <==> p.Completed? && p.returncode == 0 && !AllSpace(p.stdout)
  {
    if p.Completed? {
      StripEmpty(p.stdout);
    }
  }

  /** Where `merge_branch` goes. */
  datatype MergeOutcome =
    | MergeCancelled                 // the dialog was cancelled or left empty
    | Merged(message: string)        // the success message with the output
    | ConflictHandling               // `handle_merge_conflict` is called

  /**
   * After the merge command, a truthy output is reported as a success and
   * everything else, `None` and `""` alike, is treated as a conflict.
   */
  function MergeRoute(output: Option<string>): (outcome: MergeOutcome)
    ensures outcome.ConflictHandling? <==> output == None || output == Some("")
    ensures outcome.Merged? ==> output == Some(outcome.message) && outcome.message != ""
    ensures !outcome.MergeCancelled?
  {
    if Truthy(output) then Merged(output.value) else ConflictHandling
  }

  /** Where `rename_branch` goes. */
  datatype RenameOutcome =
    | RenameCancelled                // the dialog was cancelled or left empty
    | Renamed(newName: string)       // the success message with the new name
    | RenameSilent                   // nothing more is shown

  /**
   * After the rename command, any output that is not `None`, the empty
   * string included, is reported as a success.
   */
  function RenameRoute(output: Option<string>, newName: string): (outcome: RenameOutcome)
    ensures outcome.Renamed? <==> output.Some?
    ensures outcome.Renamed? ==> outcome.newName == newName
    ensures !outcome.RenameCancelled?
  {
    if output.Some? then Renamed(newName) else RenameSilent
  }

  /**
   * The two actions read the same output alike except on the empty
   * string: a merge then handles a conflict while a rename reports success.
   */
  lemma {:induction false} MergeRenameDisagreeOnlyOnEmpty(output: Option<string>, newName: string)
    ensures MergeRoute(output).ConflictHandling? != RenameRoute(output, newName).RenameSilent?
      <==> output == Some("")
  {
  }

  /**
   * A command that succeeds but prints only whitespace sends a merge to
   * conflict handling and makes a rename report success.
   */
  lemma {:induction false} QuietSuccessRoutes(p: ProcessResult, newName: string)
    requires p.Completed? && p.returncode == 0 && AllSpace(p.stdout)
    ensures MergeRoute(RunGitCommand(p)) == ConflictHandling
    ensures RenameRoute(RunGitCommand(p), newName) == Renamed(newName)
  {
    StripEmpty(p.stdout);
  }

  /** The remote repository `__init__` puts in the repository entry. */
  const DefaultRemoteRepo: string := "https://github.com/Hi-BlueStar/ThreeDimGenWebAPP.git"

  /** `push_changes` pushes to the entry's text, or to `origin` when it is empty. */
  function PushRemote(entry: string): (repo: string)
    ensures repo != ""
    ensures entry != "" ==> repo == entry
    ensures entry == "" ==> repo == "origin"
  {
    if entry != "" then entry else "origin"
  }

  /** The command `push_changes` runs for the given entry text. */
  function PushCommand(entry: string): string {
    "git push " + PushRemote(entry) + " master"
  }

  /** The push command is its four words joined by single spaces. */
  lemma {:induction false} PushCommandJoined(entry: string)
    ensures PushCommand(entry) == JoinSpaced(["git", "push", PushRemote(entry), "master"])
  {
    var repo := PushRemote(entry);
    var words := ["git", "push", repo, "master"];
    assert JoinSpaced(words[2..]) == repo + " " + "master" by {
      assert words[2..][1..] == ["master"];
    }
    assert JoinSpaced(words[1..]) == "push" + " " + (repo + " " + "master") by {
      assert words[1..][1..] == words[2..];
    }
    assert PushCommand(entry) == "git" + " " + ("push" + " " + (repo + " " + "master"));
  }

  /** The fixed words of the push command hold no whitespace. */
  lemma {:induction false} PushWordsAreTokens()
    ensures IsToken("git") && IsToken("push") && IsToken("master") && IsToken("origin")
  {
  }

  /**
   * When the entry is empty or a single word, the push command reads as
   * the four words `git push <remote> master`.
   */
  lemma {:induction false} PushCommandWords(entry: string)
    requires entry == "" || IsToken(entry)
    ensures Split(PushCommand(entry)) == ["git", "push", PushRemote(entry), "master"]
  {
    var words := ["git", "push", PushRemote(entry), "master"];
    PushWordsAreTokens();
    PushCommandJoined(entry);
    assert forall i :: 0 <= i < |words| ==> IsToken(words[i]);
    SplitJoinSpaced(words);
  }

  /** The quote `show_branch_graph` puts around the log format. */
  function FormatQuote(osType: string): (q: char)
    ensures q == '"' <==> osType == "Windows"
    ensures q == '"' || q == '\''
  {
    if osType == "Windows" then '"' else '\''
  }

  /**
   * The `git log` command `show_branch_graph` runs: the same format
   * `%h %p` in double quotes for exactly `"Windows"` and in single quotes
   * for every other system name.
   */
  function GraphCommand(osType: string): (cmd: string)
    ensures cmd == "git log --all --pretty=format:" + [FormatQuote(osType)] + "%h %p" + [FormatQuote(osType)]
  {
    if osType == "Windows" then "git log --all --pretty=format:\"%h %p\""
    else "git log --all --pretty=format:'%h %p'"
  }

  /** What `show_branch_graph` shows. */
  datatype GraphView =
    | NoGraphData                    // the "no graph data" message
    | Drawn(edges: seq<Edge>)        // the graph of these edges

  /** The main window's state that the git actions read and update. */
  class GitManagerApp {
    var osType: string
    var remoteRepo: string
    var repoEntry: string

    /** The defaults of `__init__`: Windows, and the default remote in the entry. */
    constructor ()
      ensures osType == "Windows"
      ensures remoteRepo == DefaultRemoteRepo
      ensures repoEntry == DefaultRemoteRepo
    {
      osType := "Windows";
      remoteRepo := DefaultRemoteRepo;
      repoEntry := remoteRepo;
    }

    /** A new choice in the system menu replaces the system name and nothing else. */
    method UpdateOsType(newOsType: string)
      modifies this
      ensures osType == newOsType
      ensures remoteRepo == old(remoteRepo) && repoEntry == old(repoEntry)
    {
      osType := newOsType;
    }

    /** Typing in the repository entry replaces its text and nothing else. */
    method EditRepoEntry(text: string)
      modifies this
      ensures repoEntry == text
      ensures osType == old(osType) && remoteRepo == old(remoteRepo)
    {
      repoEntry := text;
    }

    /**
     * `push_changes`: the command pushes `master` to the entry's remote
     * (`origin` when the entry is empty) and yields what
     * `run_git_command` returns for it.
     */
    method PushChanges(git: string -> ProcessResult) returns (command: string, output: Option<string>)
      ensures command == PushCommand(repoEntry)
      ensures output.Some? <==> git(command).Completed? && git(command).returncode == 0
      ensures output.Some? ==> output.value == Strip(git(command).stdout)
    {
      var repo := if repoEntry != "" then repoEntry else "origin";
      command := "git push " + repo + " master";
      output := RunGitCommand(git(command));
    }

    /**
     * `merge_branch`: nothing runs unless the dialog was confirmed with a
     * name; otherwise the output of `git merge <name>` is routed by
     * `MergeRoute`.
     */
    method MergeBranch(git: string -> ProcessResult, ok: bool, branchName: string)
      returns (outcome: MergeOutcome)
      ensures !(ok && branchName != "") ==> outcome == MergeCancelled
      ensures ok && branchName != "" ==>
        outcome == MergeRoute(RunGitCommand(git("git merge " + branchName)))
    {
      if ok && branchName != "" {
        var output := RunGitCommand(git("git merge " + branchName));
        outcome := MergeRoute(output);
      } else {
        outcome := MergeCancelled;
      }
    }

    /**
     * `rename_branch`: nothing runs unless the dialog was confirmed with a
     * name; otherwise the output of `git branch -m <name>` is routed by
     * `RenameRoute`.
     */
    method RenameBranch(git: string -> ProcessResult, ok: bool, newBranchName: string)
      returns (outcome: RenameOutcome)
      ensures !(ok && newBranchName != "") ==> outcome == RenameCancelled
      ensures ok && newBranchName != "" ==>
        outcome == RenameRoute(RunGitCommand(git("git branch -m " + newBranchName)), newBranchName)
    {
      if ok && newBranchName != "" {
        var output := RunGitCommand(git("git branch -m " + newBranchName));
        outcome := RenameRoute(output, newBranchName);
      } else {
        outcome := RenameCancelled;
      }
    }

    /**
     * `show_branch_graph`: the log command for the current system is run;
     * a truthy output is drawn as the graph of its extracted edges, and
     * anything else gives the "no graph data" message.
     */
    method ShowBranchGraph(git: string -> ProcessResult) returns (view: GraphView)
      ensures var output := RunGitCommand(git(GraphCommand(osType)));
        view == if Truthy(output) then Drawn(EdgesOfText(output.value)) else NoGraphData
    {
      var command := if osType == "Windows" then "git log --all --pretty=format:\"%h %p\""
        else "git log --all --pretty=format:'%h %p'";
      var output := RunGitCommand(git(command));
      if output.Some? && output.value != "" {
        var edges := ExtractEdges(output.value);
        view := Drawn(edges);
      } else {
        view := NoGraphData;
      }
    }
  }
}

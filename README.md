# gitFlow: a Dafny model of the git-workflow window's decision logic

`gitFlow.py` is a Qt window (`GitManagerApp`) with one button per git action. Each action:
- builds a git command line;
- runs it through `run_git_command`, which returns the stripped standard output on success and `None` on failure;
- decides from that value what to show.

The one piece of data processing is the branch graph. `show_branch_graph` runs `git log --all --pretty=format:"%h %p"`, where each line is an abbreviated commit hash followed by the hashes of its parents. It then turns every line `c p1 ... pn` into the edges `(p1, c) ... (pn, c)`.

This project models that logic in five files:

- `wrappers.dfy` (module `Wrappers`): `Option`, standing for Python's `str or None`.
- `pytext.dfy` (module `PyText`): the Python string operations the code relies on, at code-point level:
  - `str.isspace` for one character;
  - `str.strip()`;
  - `str.split()` with no argument (runs of whitespace);
  - `str.split('\n')`.

  Each function carries only its bounds. What it computes is stated by the lemmas next to it:
  - `strip()` removes exactly the whitespace at both ends;
  - `split()` yields non-empty, whitespace-free tokens;
  - `split(sep)` and `sep.join` are inverse to each other.
- `commit_graph.dfy` (module `CommitGraph`): the edge extraction.
  - The specification is the function `EdgesOfText`. It flat-maps `LineEdges` over the lines of the output.
  - The imperative extraction is the methods `ExtractEdges`, `ExtractEdgesOfLines` and `AppendLineEdges`. The two nested `for` loops grow `edges` by appending, and they are proved equal to `EdgesOfText`.
  - The lemmas state what a line contributes, how many edges come out, where every edge comes from and what its endpoints are. They also cover concatenation, blank lines and duplicated lines.
- `git_flow.dfy` (module `GitFlow`):
  - the mapping from a process result to the return value of `run_git_command`, and its error message;
  - Python truthiness of that value;
  - how `merge_branch` and `rename_branch` route it;
  - the push remote and push command;
  - the `git log` command chosen by the system name;
  - the class `GitManagerApp` with the fields the actions read and update (`osType`, `remoteRepo` and the text of the repository entry). Its methods cover the OS update, push, merge, rename and branch-graph actions.

  Running a command is a parameter `git: string -> ProcessResult`: the result the environment gives for a command line.
- `graph_examples.dfy` (module `GraphExamples`): the graph of concrete logs (a merge commit, a root commit, an empty log).

The merge routing is modelled as written: any falsy output goes to conflict handling. Two lemmas show the consequence:
- `QuietSuccessRoutes`: a successful merge that prints nothing is treated as a conflict, while the same output counts as success for a rename.
- `MergeRenameDisagreeOnlyOnEmpty`: the two routes disagree exactly on `""`.

## Model

| member | source | states |
|---|---|---|
| PyText.StripSpec | gitFlow.py:600 | `strip()` returns the slice of the line that starts after its leading whitespace, and neither end of the result is whitespace |
| PyText.StripRemovesSpace | gitFlow.py:600 | everything `strip()` removes before and after the result is whitespace |
| PyText.StripEmpty | gitFlow.py:423 | the stripped text is empty exactly when the original is all whitespace |
| PyText.StripUnique | gitFlow.py:600 | any split of a string into whitespace prefix, body with non-whitespace ends, and whitespace suffix has `strip()` equal to the body |
| PyText.StripIdempotent | gitFlow.py:600 | stripping an already stripped line (the output of `run_git_command` is stripped again line by line) changes nothing |
| PyText.SplitTokens | gitFlow.py:600 | every element `split()` yields is non-empty and free of whitespace |
| PyText.SplitToken | gitFlow.py:600 | a token followed by whitespace or nothing is split off whole, as the first element |
| PyText.SplitDropLeading | gitFlow.py:600 | dropping leading whitespace does not change the tokens of `split()` |
| PyText.SplitDropTrailing | gitFlow.py:600 | dropping trailing whitespace does not change the tokens of `split()` |
| PyText.SplitStrip | gitFlow.py:600 | `line.strip().split()` yields the same tokens as `line.split()` |
| PyText.SplitJoinSpaced | gitFlow.py:600 | splitting tokens joined by single spaces gives back exactly those tokens |
| PyText.SplitOnCount | gitFlow.py:599 | `output.split('\n')` has one more line than the output has newlines |
| PyText.SplitOnPieces | gitFlow.py:599 | no line of `output.split('\n')` contains a newline |
| PyText.JoinSplitOn | gitFlow.py:599 | joining the lines back with `'\n'` rebuilds the output exactly |
| PyText.SplitOnJoin | gitFlow.py:599 | splitting a newline-join of newline-free lines gives back those lines |
| PyText.SplitOnConcat | gitFlow.py:599 | splitting `a + '\n' + b` on newlines gives the lines of `a` followed by the lines of `b` |
| CommitGraph.ParentEdgesAt | gitFlow.py:602-604 | the inner loop appends one edge per parent, the k-th being `(parents[k], child)` |
| CommitGraph.LineContribution | gitFlow.py:600-604 | a line with tokens `c p1 ... pn` contributes exactly `(p1,c) ... (pn,c)` in order; a line with zero or one token contributes nothing |
| CommitGraph.BlankLineEdges | gitFlow.py:600-601 | a blank or whitespace-only line contributes no edge |
| CommitGraph.BlankLineIgnored | gitFlow.py:599-604 | a blank line anywhere in the log leaves the edges of the lines around it unchanged |
| CommitGraph.ExtractEdges | gitFlow.py:597-604 | the extraction loop over `output.split('\n')` produces exactly `EdgesOfText(output)` |
| CommitGraph.ExtractEdgesOfLines | gitFlow.py:597-604 | the outer loop, over the lines, appends the edges of each line in line order |
| CommitGraph.AppendLineEdges | gitFlow.py:601-604 | one pass of the outer loop body appends `(parts[k], parts[0])` for k = 1..n-1 when there are at least two tokens, and nothing otherwise |
| CommitGraph.EdgesOfLinesStep | gitFlow.py:599-604 | the edges of the first i+1 lines are those of the first i followed by those of line i |
| CommitGraph.EdgesOfLinesCons | gitFlow.py:599-604 | the first line's edges come before the edges of all later lines |
| CommitGraph.EdgesOfLinesAppend | gitFlow.py:599-604 | extraction distributes over concatenation of line sequences |
| CommitGraph.EdgesOfTextConcat | gitFlow.py:599-604 | the edges of `a + "\n" + b` are the edges of `a` followed by those of `b` |
| CommitGraph.EdgeCount | gitFlow.py:597-604 | the number of edges is the sum over lines of max(0, tokens - 1) |
| CommitGraph.LineEdgeOrigin | gitFlow.py:600-604 | an edge comes from a line exactly when its child is the line's first token and its parent is one of the other tokens |
| CommitGraph.EdgeOrigin | gitFlow.py:597-604 | an edge is extracted exactly when some line has its child as first token and its parent among the other tokens |
| CommitGraph.EdgeEndpoints | gitFlow.py:600-604 | both endpoints of every extracted edge are non-empty and free of whitespace |
| CommitGraph.DuplicatedLog | gitFlow.py:597-604 | a repeated log gives its edges twice: nothing is deduplicated |
| GitFlow.RunGitCommand | gitFlow.py:421-430 | the result is present exactly when the process completed with return code 0, and it is then the stripped standard output |
| GitFlow.ErrorMessage | gitFlow.py:426-430 | an error is reported exactly when the result is `None`: the stripped standard error for a non-zero return code, the exception message when the command could not run |
| GitFlow.RunGitCommandStripped | gitFlow.py:423 | a successful result has no whitespace at either end and holds the same words as the raw standard output |
| GitFlow.TruthyOutput | gitFlow.py:421-423 | `if output:` holds exactly when the command succeeded and printed something other than whitespace |
| GitFlow.MergeRoute | gitFlow.py:525-530 | a merge takes the conflict path exactly for `None` and `""`, and otherwise reports the non-empty output |
| GitFlow.RenameRoute | gitFlow.py:544-546 | a rename reports success exactly when the output is not `None`, the empty string included, naming the new branch |
| GitFlow.MergeRenameDisagreeOnlyOnEmpty | gitFlow.py:525-544 | merge and rename classify an output alike except on `""`, where merge handles a conflict and rename reports success |
| GitFlow.QuietSuccessRoutes | gitFlow.py:524-544 | a command that succeeds printing only whitespace sends a merge to conflict handling and makes a rename report success |
| GitFlow.PushRemote | gitFlow.py:463 | the push target is the entry text when non-empty and `origin` when empty, never empty |
| GitFlow.PushCommandJoined | gitFlow.py:464 | the push command is the words `git`, `push`, the remote and `master` joined by single spaces |
| GitFlow.PushCommandWords | gitFlow.py:463-464 | for an empty or one-word entry the push command splits into exactly `git push <remote> master` |
| GitFlow.FormatQuote | gitFlow.py:589-592 | the format is double-quoted exactly for the system name `Windows`, single-quoted otherwise |
| GitFlow.GraphCommand | gitFlow.py:589-592 | the log command is `git log --all --pretty=format:` followed by `%h %p` in the quote chosen for the system |
| GitFlow.GitManagerApp.constructor | gitFlow.py:243-245 | a new window has system `Windows` and the default remote repository, which also fills the repository entry |
| GitFlow.GitManagerApp.UpdateOsType | gitFlow.py:401 | choosing a system replaces the system name and leaves the other fields unchanged |
| GitFlow.GitManagerApp.EditRepoEntry | gitFlow.py:282-283 | typing in the repository entry replaces its text and leaves the other fields unchanged |
| GitFlow.GitManagerApp.PushChanges | gitFlow.py:463-464 | the push runs `PushCommand` of the entry text and yields what `run_git_command` returns for it |
| GitFlow.GitManagerApp.MergeBranch | gitFlow.py:521-530 | nothing runs unless the dialog is confirmed with a name; otherwise the output of `git merge <name>` is routed by `MergeRoute` |
| GitFlow.GitManagerApp.RenameBranch | gitFlow.py:540-546 | nothing runs unless the dialog is confirmed with a name; otherwise the output of `git branch -m <name>` is routed by `RenameRoute` |
| GitFlow.GitManagerApp.ShowBranchGraph | gitFlow.py:589-632 | runs the log command of the current system; a truthy output is drawn as the graph of `EdgesOfText` of it, anything else gives the no-data message |
| GraphExamples.MergeCommitLine | gitFlow.py:599-604 | the log `abc123 def456 ghi789` gives exactly the edges `(def456, abc123)` and `(ghi789, abc123)` in that order |
| GraphExamples.RootCommitLine | gitFlow.py:601 | the log `abc123` (a root commit) gives no edge |
| GraphExamples.EmptyLog | gitFlow.py:599-601 | an empty log gives no edge |

## Left out

- `AnimatedButton` (gitFlow.py:14-213) and QtButtom.py: button painting and hover animation on colours and floating-point scale factors, with no data model.
- Running a process. The `subprocess.run` calls and the choice of shell by system (gitFlow.py:414-419) are replaced by the parameter `git`. As a result, the system name affects only the graph command's quoting in this model.
- Qt dialogs, message boxes, input prompts and layout (gitFlow.py:225-392 and the `QInputDialog`/`QMessageBox` calls). A dialog's answer is a parameter (`ok` and the typed name); a message is a constructor of the outcome datatypes, without its text.
- `handle_merge_conflict` (gitFlow.py:567-580): its behaviour depends only on a yes/no dialog, and the result of the commit it runs is ignored, so the model stops at `ConflictHandling`.
- Drawing the graph with networkx and matplotlib (gitFlow.py:606-629). `GraphView.Drawn` holds the edge list handed to the graph library.
- The actions `init_repository`, `commit_changes`, `show_branches`, `create_branch`, `switch_branch` and `delete_branch` (gitFlow.py:432-511, 548-566). Each runs one command and shows truthy output, which `RunGitCommand` and `TruthyOutput` cover. How the commit message is quoted for the shell (gitFlow.py:451) depends on the external shell.
- CommitGraph.ExtractEdges: the body of the outer loop is the separate method `AppendLineEdges`, and the loop over the lines is `ExtractEdgesOfLines`. The order of appends and the resulting list are as in the source.
- Strings are sequences of code points. Python's `isspace` is modelled by its fixed set of whitespace code points. Text decoding of the process output is not modelled.

# Verification of the lightwave CLI's protocols

This project models the parts of the `lw` command line that carry real obligations, in Dafny, and proves
what they keep. External services (GitHub, the task queue, git, Postgres, the file system) appear either as
small state machines or as answers passed in as parameters; everything in between follows the code, branch by
branch. Nothing here runs the program. `dafny verify dfyconfig.toml` checks the whole project.

Code that changes things step by step is an imperative method proved against a specification function; the
properties are then proved about that function, or about a transition system over all runs.

| part | modules |
|---|---|
| Codex config editor | `SectionEditor`, `SectionReading`, `TableReading`, `CodexConfig`, `CodexTables`, `CodexFixpoint`, `CodexLists`, `ToyToml` |
| Issue loop and merge gate | `PullRequests`, `Glob`, `MergeGate`, `IssueQueue`, `QueueRetries`, `IssueLoop`, `IssueLoopRuns`, `Reconcile`, `ReconcileActs`, `LoopLink` |
| ADR numbers and slugs | `Slugs`, `SlugWords`, `Adr`, `AdrReserve`, `Corpus` |
| Schema, command tree, drift gate, decommissioning | `CommandTree`, `Dispatcher`, `LeafHandlers`, `DriftGate`, `CommandStatus`, `OfflineAnswers` |
| GitHub sync and pick | `IssueBody`, `IssueFields`, `GithubSync`, `SyncSays`, `SyncConverges`, `GithubPick`, `PickRanks` |
| Release propagation | `CommitGraph`, `Propagate` |
| Agent records | `AgentRecords`, `AgentRaces` |
| Strings | `Text` |

## Results worth knowing

Some properties one would expect are false of the code. The code is modelled as it is; for each there is a
concrete counterexample and the exact condition under which it holds.

- **One live task per issue** is false. The issue's labels are part of the request, so adding `status:retry`
  changes it, generation 1 answers 409, and a retry tick creates generation 2 beside a live generation 1
  (`IssueLoopRuns.RetryLabelForks`). A retry tick forks a live issue exactly when no live generation carries the
  current request and the last generation is still free (`IssueLoopRuns.RetryForksExactly`). What holds over
  every run: among generations created from equal requests at most one is live.
- **ADR numbers stay distinct** except in two ways. `%04d` writes five digits from 10000 on, the scan reads exactly
  four, so the highest number seen stays 9999 and 10000 is given out again and again (`AdrReserve.NumbersRunOut`); a
  call gets 10000 if and only if its scan saw a file numbered 9999 (`AdrReserve.ReservedExactly`). And a number is free
  again once its file is gone (`AdrReserve.RemovedNumberReturns`). There is no third way: two calls reserve the same
  number of at most four digits only if the file of one was removed after its creation and before the other's scan
  (`AdrReserve.ReservedNumbersAreDistinct`), and a number up to n comes back exactly if the scan saw no file numbered n or more
  (`AdrReserve.NumberComesBackExactly`).
- **`ensureCodexSection` is idempotent** exactly when every key is one the reader can read back: not empty, no
  outer blanks, no space, tab, `=` or line break inside, no leading `#` (`SectionReading.EditedTwiceIffGoodKeys`).
- **The section editor is a map update** for every reader that finds tables by its own headers. TOML lets a comment
  follow a header, and the editor takes `[other] # note` for no header, so it can change a key of `[other]` or put one
  there (`TableReading.CommentHidesHeader`). To a reader that knows such headers every edit is a map update of the table if
  and only if no line the editor takes into the section opens a table or, where the editor finds no section, no line opens
  this one (`TableReading.EditIsTableUpdateExactly`).
- **The harness pipeline settles** exactly when no field of the merged server table holds a list of tables
  (`CodexLists.SettlesExactly`). Such a list is rendered under `[[mcp_servers.lightwave.x]]`, a header the filter does
  not take for the server's own, so every run keeps it and renders it again (`CodexLists.ListsGrow`,
  `ToyToml.ListedNeverSettles`). Without lists one run is enough exactly when the fragment has no server or no root, or
  `[desktop]` is already there; otherwise the second run moves the server's table behind the new section.
- **`strconv.Quote` writes TOML** only for values without the characters it escapes as `\a`, `\v` or `\x..`, which
  TOML basic strings do not know (`SectionEditor.QuotedValueReadsBack`).
- **The glob compiler** walks the bytes of a pattern, so a pattern beyond ASCII is matched byte for character: `é` does
  not match the path `é` (`Glob.AccentIsRefused`). It is right on every path exactly for ASCII patterns
  (`Glob.BytesMatterExactly`). And `.*` stops at a line break, so a path that holds one can slip past a `**` pattern
  (`Glob.BreakSlipsPast`); which paths those are is `Glob.BreaksMatterExactly`, and on one-line paths the compiler is
  exact for ASCII patterns (`Glob.CompilerIsExactFor`). The gate and the merge results are stated with the matcher the
  code runs; `Reconcile.NoMergeTouchesOperatorPaths` draws the conclusion for ASCII patterns and one-line file names.
- **An agent's exit code can be lost** when a poller saves what it read before the reaper saved
  (`AgentRaces.ExitCodeCanBeLost`). It is kept exactly if all processes that are still there and hold a record of the
  agent hold that code (`AgentRaces.ExitCodeKeptExactly`).
- **Sync settles** after one pass without failures exactly when no two open issues led to the same task and every task
  an issue led to was in line with it, found for it, or, to be closed, found for another closed issue
  (`SyncConverges.SecondPassIsQuietExactly`). The database may answer any of several tasks of an issue; whichever it answers,
  sync settles exactly when no two open issues lead to the same task and every task an issue leads to is in line, the
  only one, or sure to be closed by another issue (`SyncConverges.TwoPassesSettleExactly`). An open issue with two tasks out of
  line is not covered by one pass (`SyncConverges.TwoTasksAreNotCovered`), and that is what a failed lookup makes: it is taken
  for "no task"; exactly when is `SyncConverges.FailedLookupDuplicates`.
- **A priority line** is read as the highest priority it speaks of: `P2 (was P1)` is urgent (`SyncSays.FormerPriorityCounts`).
  A line that names Pn has the n-th priority exactly if it speaks of no higher one besides (`SyncSays.NamedPriority`).
- **The recheck after a rebase** cannot fail exactly if no commit that main and the worktree both hold stands directly on
  the target (`Propagate.RebaseCanMissExactly`), which is always so when a rebase is called for and main is linear
  (`Propagate.LinearMainPasses`). Where there is such a commit, git may keep it, and the recheck fails exactly if the rebase
  kept a commit of main (`Propagate.RecheckPassesExactly`). A graph with merges on which it fails is `Propagate.RecheckCanRefuse`.

## Assumptions

- The task queue: a task is created once per idempotency key, a taken key with another request answers 409, and
  the task version starts at 1 and grows by one per submit and per reject. A task's id stands for its key. The
  queue starts empty, and time never comes within the exhausted horizon of the parking time. Every tick brings its own
  number of review rounds, and a run is bounded by the largest one used in it. A pull request is open, merged or closed.
  Repositories are compared as written, as the code does, though GitHub ignores case.
- The TOML library is a parameter with the law `CodexFixpoint.Lawful`: rendering the server table gives lines that
  open with its own header and hold nothing but its tables and lists of tables; where such lines are read back in a
  valid config, a field that holds no list of tables and agrees with what the config said before has the value
  rendered, a field with a list has one again, and other fields were in the config before; and editing `[desktop]` says
  nothing about the server. `ToyToml.ToyIsLawful` shows that the law can be met. There, `valid`
  is to be read as "parses, and every line that opens with `[` is a header": a multi-line string that holds such a line
  is outside, and so is a header with a comment, which `TableReading` looks at.
- The database answers an epic's name the same way in both passes; a new task's short id is fresh; the commits a
  rebase replays are new, and those it keeps stand in a line on its target already. Between the steps of `propagateWorktree` other than CI nobody moves the worktree.
- A spawned agent's id is new to the state directory. A directory listing shows the files that are there all the
  while; files that come or go meanwhile may be seen or missed. Writers outside the ADR lock may create, overwrite and
  remove files at any time.

## Model

| member | source | states |
|---|---|---|
| `SectionEditor.EnsureSection` | internal/cli/config_harness.go:341-421 | The editor's loops compute the text obtained by replacing the body of the first section with that header, or by appending the section after one empty line |
| `SectionEditor.RewriteBody` | internal/cli/config_harness.go:382-399 | Exactly the lines whose key is wanted are replaced, and `seen` holds exactly the wanted keys some line assigns |
| `SectionEditor.FindBlankTail` | internal/cli/config_harness.go:401-404 | Missing keys go before the maximal blank tail of the section |
| `SectionEditor.GoodKeyIsReadBack` | internal/cli/config_harness.go:423-444 | The assignment written for a good key is read back as that key, with the quoted value as its value |
| `SectionEditor.KeysReadAreGood` | internal/cli/config_harness.go:423-440 | Every key read off any line is a good key, so good keys are the largest set that can work |
| `SectionEditor.QuotedValueReadsBack` | internal/cli/config_harness.go:442-444 | A TOML reader gets the value back if and only if it holds no character that is escaped in Go's way but not in TOML's |
| `SectionReading.EditIsMapUpdate` | internal/cli/config_harness.go:341-421 | Reading the edited lines by section and key, with the headers the editor knows: wanted keys of the section have the new values, every other section and key reads as before |
| `SectionReading.EditedTextIsMapUpdate` | internal/cli/config_harness.go:341-421 | The same for whole texts, across splitting, joining and the final line break |
| `SectionReading.SurvivorsVerbatim` | internal/cli/config_harness.go:373-420 | All lines outside the section stay as they are; inside it the lines with unwanted keys survive verbatim and in order |
| `SectionReading.EditedTwice` | internal/cli/config_harness.go:341-421 | With good keys the second edit changes no character of the text |
| `SectionReading.EditedTwiceIffGoodKeys` | internal/cli/config_harness.go:341-444 | The edit is idempotent on a text if and only if all wanted keys are good |
| `TableReading.EditIsTableUpdateExactly` | internal/cli/config_harness.go:341-421 | For any reader of headers that knows the editor's own: every edit with keys that do not open with `[` updates the one table and leaves it the only one of its name, if and only if nothing in the section's body opens a table or, without a section, no line opens this one |
| `TableReading.EditedTextIsTableUpdateExactly` | internal/cli/config_harness.go:341-421 | The same for whole texts and a reader that knows headers with comments |
| `TableReading.CommentHidesHeader` | internal/cli/config_harness.go:373-379 | Three lines on which an edit of `[s]` changes a key of `[o]`, whose header carries a comment |
| `CodexConfig.MergeServer` | internal/cli/config_harness_mcp.go:36-54 | Copying, deleting transport fields and overlaying computes the field-wise merge |
| `CodexConfig.DropOwned` | internal/cli/config_harness_mcp.go:61-74 | The loop with the `drop` flag keeps exactly the lines not under a header of the owned server |
| `CodexConfig.EnsureMcp` | internal/cli/config_harness_mcp.go:14-84 | The config without the owned tables, then the rendered merge of what the whole config says of the server; without a server table in the fragment the config is returned as it is; one that is invalid before or after is an error |
| `CodexConfig.EnsureWorktreeRoot` | internal/cli/config_harness_mcp.go:88-107 | The desktop section is edited only for an absolute path; another root is an error and none leaves the text alone |
| `CodexConfig.Apply` | internal/cli/config_harness.go:190-262 | The three steps in order, the first error stopping the pipeline |
| `CodexTables.DroppedByName` | internal/cli/config_harness_mcp.go:66-69 | Splitting a whole header at its dots, quotes aside: its table is dropped if and only if its first two names are mcp_servers and lightwave |
| `CodexTables.OtherTablesStay` | internal/cli/config_harness_mcp.go:61-74 | The lines before the first table and every table of another name are kept, header and body verbatim and in order, and nothing else |
| `CodexTables.RunReads` | internal/cli/config_harness.go:190-262 | After a run that succeeds every key of every table but the server's reads as before, save the settings of `[shell_environment_policy.set]` and the root in `[desktop]`, which read as asked for |
| `CodexTables.RunMerges` | internal/cli/config_harness_mcp.go:32-84 | And the server's table, as the library reads it, is the merge of what was there and what was asked for |
| `CodexTables.RunSucceedsExactly` | internal/cli/config_harness.go:213-228 | A run succeeds if and only if the root is absent or absolute and the text is valid around the merge and at the end |
| `CodexFixpoint.MergeFields` | internal/cli/config_harness_mcp.go:36-54 | Policy fields that exist win, transport fields are exactly the desired ones, other desired fields win, and the rest survives; which fields are which |
| `CodexFixpoint.MergeTwice` | internal/cli/config_harness_mcp.go:36-54 | Merging the same desired table again changes nothing |
| `CodexFixpoint.SettlesInOneRun` | internal/cli/config_harness.go:218-228 | Without lists of tables the first run's text is a fixed point if and only if the fragment has no server or no root, or `[desktop]` was there |
| `CodexFixpoint.SettlesInTwoRuns` | internal/cli/config_harness.go:218-228 | Without lists of tables two runs reach the fixed point, and the second differs from the first exactly when one run is not enough |
| `CodexFixpoint.EchoMerges` | internal/cli/config_harness_mcp.go:32-56 | What is read back from a rendered table merges to the same table again |
| `CodexLists.CountKept` | internal/cli/config_harness_mcp.go:61-74 | The filter drops no header of a list of tables, the server's included |
| `CodexLists.CountEdit` | internal/cli/config_harness.go:341-421 | The section editor neither adds nor removes such a header |
| `CodexLists.ListsNeverSettle` | internal/cli/config_harness_mcp.go:56-78 | A run that merges a list of tables adds such headers, and the next run merges a list again and changes the text |
| `CodexLists.ListsGrow` | internal/cli/config_harness_mcp.go:56-78 | After n more runs there are at least n more of them |
| `CodexLists.SettlesExactly` | internal/cli/config_harness.go:218-228 | Two runs reach a fixed point if and only if nothing merged holds a list of tables; one does if and only if besides nothing has to move |
| `ToyToml.ToyIsLawful` | internal/cli/config_harness_mcp.go:56-78 | A library that meets the law, with lists of tables |
| `ToyToml.ToySettlesExactly` | internal/cli/config_harness.go:218-228 | With it the pipeline runs on every valid config and settles at once exactly if that holds no list header |
| `ToyToml.ListedNeverSettles` | internal/cli/config_harness_mcp.go:61-78 | A config of one line on which no number of runs settles |
| `Glob.GlobMatch` | internal/cli/issue_loop_merge_hold.go:153-176 | Walking the bytes, compiling and matching is the matcher on the bytes, and for an ASCII pattern and a one-line path the direct matcher with `**` as any string |
| `Glob.ReadsBack` | internal/cli/issue_loop_merge_hold.go:153-176 | The regular expression written for some bytes parses back to exactly one item per `**`, `*`, `?` and literal byte |
| `Glob.WrittenRegexIsGlob` | internal/cli/issue_loop_merge_hold.go:153-176 | The expression written for some bytes accepts a path if and only if the recursive matcher does for those bytes |
| `Glob.OneLinePathSpansAll` | internal/cli/issue_loop_merge_hold.go:151-176 | On one-line paths "any character but a line break" is any character |
| `Glob.BreakSlipsPast` | internal/cli/issue_loop_merge_hold.go:151-176 | A path with a line break under a protected directory is not matched by the code, though `**` is any string |
| `Glob.BreaksMatterExactly` | internal/cli/issue_loop_merge_hold.go:151-176 | All patterns read the two ways agree on a path if and only if the path holds no line break |
| `Glob.AccentIsRefused` | internal/cli/issue_loop_merge_hold.go:158-171 | The pattern `é` does not match the path `é` |
| `Glob.BytesMatterExactly` | internal/cli/issue_loop_merge_hold.go:158-171 | The code is the matcher on characters, on every path, if and only if the pattern is ASCII; any other pattern refuses its own shortest instance |
| `Glob.CompilerIsExactFor` | internal/cli/issue_loop_merge_hold.go:151-176 | On one-line paths the code is the direct matcher if and only if the pattern is ASCII, or holds a line break and matches no such path |
| `PullRequests.MergesOnlyGreen` | internal/cli/issue_loop_handlers.go:648-710 | A merge is decided if and only if the request is open, no draft, not dirty, has a check, none failed or pending, nothing asks for changes or awaits review |
| `PullRequests.FailsExactly` | internal/cli/issue_loop_handlers.go:648-710 | The failing verdicts are exactly the conflict, failed-check and changes-requested cases; the last round drops |
| `PullRequests.FailedAndPending` | internal/github/issue_loop.go:196-218 | A list of checks has no failure and nothing pending exactly when each check passed by its conclusion |
| `PullRequests.DecidesExactly` | internal/cli/issue_loop_handlers.go:648-710 | Each of the six decisions has its own condition on the request: approve exactly a merged one, drop a closed one or a last failed round, reject an earlier failed round, mark ready a draft, wait while something is open, merge when all is green |
| `MergeGate.RequiredNotPassedYet` | internal/cli/issue_loop_merge_hold.go:94-110 | A missing required check is reported if and only if some required check has no success, and the one reported has none |
| `MergeGate.MatchOperatorPath` | internal/cli/issue_loop_merge_hold.go:81-87 | The two loops report a file and a pattern that the code's matcher accepts if and only if some pair is accepted |
| `MergeGate.Gate.LoadOperatorPaths` | internal/cli/issue_loop_merge_hold.go:112-119 | The policy is read at most once; later calls answer what the first one read, error included |
| `MergeGate.Gate.HoldMerge` | internal/cli/issue_loop_merge_hold.go:53-90 | A request is let through if and only if it may merge on reads that all succeeded; which reason is given; when the cache is filled |
| `MergeGate.MergesSpareOperatorPaths` | internal/cli/issue_loop_merge_hold.go:81-87 | What may merge touches no path of an ASCII operator pattern, in file names without line breaks |
| `IssueQueue.KeysAreDistinct` | internal/cli/issue_loop_handlers.go:98-103 | Two generations of two issues of a repository never share a key |
| `IssueQueue.Server.CreateTask` | internal/nulltickets/client.go:110-131 | One task per key; the same request again answers the task, another one a conflict; a lost answer may have been carried out |
| `IssueQueue.RetryIssue` | internal/cli/issue_loop_handlers.go:245-287 | The loop over generations finds or creates what the recursive specification says, for every pattern of lost calls |
| `IssueQueue.PromoteIssue` | internal/cli/issue_loop_handlers.go:156-172 | Promotion creates generation 1 or nothing, and which of the three answers it gets; a conflict leaves the queue alone |
| `QueueRetries.RetryMeans` | internal/cli/issue_loop_handlers.go:245-287 | A retry answers with the first generation that is live and carries the request, all earlier ones being dead or other; with none only if all five are; it fails only if a call was lost; nothing in the queue changes |
| `QueueRetries.RequestsAgree` | internal/cli/issue_loop_handlers.go:289-309 | Two states of an issue make the same request if and only if title, labels and text agree, blanks before the text aside |
| `QueueRetries.LiveExactly` | internal/cli/issue_loop_handlers.go:217-237 | A task is live exactly while it is in development or review and not parked for a year or more |
| `IssueLoop.StepKeepsInv` | internal/cli/issue_loop_handlers.go:207-309 | Every step keeps: generations without a gap and at most five, all earlier ones with the same request dead, rounds within bounds |
| `IssueLoop.RetryEffect` | internal/cli/issue_loop_handlers.go:245-287 | A retry adds at most one generation, the next one, and only past generations that are dead or carry another request |
| `IssueLoopRuns.GenerationsArePrefix` | internal/cli/issue_loop_handlers.go:207-287 | In every state of every run the generations of an issue are 1..k with k at most 5 |
| `IssueLoopRuns.RunKeeps` | internal/cli/issue_loop_handlers.go:217-237 | Along a run tasks are never lost, their requests never change, and a dead task stays dead |
| `IssueLoopRuns.OneLivePerRequest` | internal/cli/issue_loop_handlers.go:223-287 | Two live generations of one issue carry different requests |
| `IssueLoopRuns.RetryRepeats` | internal/cli/issue_loop_handlers.go:239-287 | Repeating a retry tick on an unchanged issue whose task is still live returns the same task and creates nothing |
| `IssueLoopRuns.RetryForksExactly` | internal/cli/issue_loop_handlers.go:239-309 | A retry tick on an issue with a live task creates another task exactly when no live one carries the current request and a generation is left |
| `IssueLoopRuns.RetryForksUnderLoss` | internal/cli/issue_loop_handlers.go:245-287 | For any pattern of lost calls: a retry adds a task exactly under that condition when no call it needs is lost |
| `IssueLoopRuns.OnlyRetriesFork` | internal/cli/issue_loop_handlers.go:122-287 | A step that adds a generation to an issue that has one is a retry tick of that issue |
| `IssueLoopRuns.RetryLabelForks` | internal/cli/issue_loop_handlers.go:239-309 | A run of four events with two live tasks for one issue, caused by the retry label itself |
| `IssueLoopRuns.RetryTakesLabel` | internal/cli/issue_loop_handlers.go:239-287 | A retry that finds or creates a task and takes the label away cannot happen again until the label is back; nothing else about any issue changes |
| `IssueLoopRuns.HistoryCountsVerdicts` | internal/cli/issue_loop_handlers.go:539-608 | The failing verdicts a run contains for a task are those its history counts |
| `IssueLoopRuns.RoundsAreBounded` | internal/cli/issue_loop_handlers.go:77-79 | One task gets at most max(r, 1) failing verdicts over a whole run, where r is the largest number of rounds any tick of the run uses |
| `IssueLoopRuns.ReviewRoundsCount` | internal/cli/issue_loop_handlers.go:613-710 | The round computed from the task version is the number of the verdict; before the last it rejects, the last one ends the task |
| `IssueLoopRuns.LoopCannotRejectForever` | internal/cli/issue_loop_handlers.go:77-79 | One issue gets at most 5·max(r, 1) failing verdicts over a whole run, r as before |
| `Reconcile.Host.RunTick` | internal/cli/issue_loop_handlers.go:328-387 | One tick's acts on GitHub and the queue are exactly the specified trace, the gate's cache shared by both passes |
| `Reconcile.Host.ReconcileExhausted` | internal/cli/issue_loop_handlers.go:393-432 | Exactly the exhausted tasks are withdrawn and handed off |
| `Reconcile.Host.ReconcileOrphaned` | internal/cli/issue_loop_handlers.go:440-519 | For each delivered task that ended recently with a tagged open request: mark ready, or arm if green and not held |
| `Reconcile.Host.ReconcileTask` | internal/cli/issue_loop_handlers.go:542-608 | The decision on a task in review and what follows from it, including waiting for a missing request and a hold by the gate |
| `Reconcile.Host.MoveTask` | internal/cli/issue_loop_handlers.go:613-630 | A transition happens only on a claimed task |
| `Reconcile.MergesAreSafe` | internal/cli/issue_loop_handlers.go:440-608 | Every merge of a tick is armed for a found request at its judged head, green, and let through by the gate on successful reads; only drafts are marked ready |
| `Reconcile.EveryMergeOfARunIsSafe` | internal/cli/issue_loop_handlers.go:440-608 | The same for every merge of any sequence of ticks, and none is in a repository written lightwave-core |
| `Reconcile.NoMergeTouchesOperatorPaths` | internal/cli/issue_loop_merge_hold.go:81-87 | For every merge of any sequence of ticks: no changed file matches an ASCII operator pattern that was read, in file names without line breaks |
| `Reconcile.DryRunActsOnNothing` | internal/cli/issue_loop_handlers.go:328-387 | A dry run has no act at all |
| `ReconcileActs.ActsExactly` | internal/cli/issue_loop_handlers.go:328-608 | Every act of a tick but arming a merge happens if and only if what was read on some task of its lists calls for it: withdrawals, hand-offs, marking ready, moves |
| `ReconcileActs.MovesExactly` | internal/cli/issue_loop_handlers.go:542-630 | A task is moved with approval if and only if its request is merged and it can be claimed; dropped if the request is closed or its last round fails; sent back if an earlier round fails |
| `ReconcileActs.GreenIsMerged` | internal/cli/issue_loop_handlers.go:440-608 | A green request of known head that the gate lets through is armed, for a task in review or one that ended |
| `ReconcileActs.MergeWasVetted` | internal/cli/issue_loop_merge_hold.go:53-110 | For every merge a tick arms: not in lightwave-core, the branch has required checks and all passed, and no changed file matches a path of the policy file that was read |
| `LoopLink.MovesAreReviews` | internal/cli/issue_loop_handlers.go:542-630 | A tick moves a task exactly when it claims it and the loop's verdict ends it or sends it back, with that verdict, and the queue then makes the loop's review step |
| `Slugs.SlugInOnePass` | internal/agent/worktree.go:71-89 | The one-pass loop with `prevDash` equals the replace-then-trim slug on every string |
| `Slugs.SlugifyIsSlug` | internal/adr/adr.go:146-158 | A slug holds slug characters and single inner dashes only |
| `Slugs.SlugifyTwice` | internal/adr/adr.go:146-158 | Slugifying twice is slugifying once |
| `Slugs.IssueBranchSlug` | internal/cli/helpers_legacy.go:105-113 | A prefix of the full slug, itself a slug, at most 40 long, longer than 20 when cut, and cut at the last possible dash |
| `Slugs.IssueBranchName` | internal/cli/helpers_legacy.go:93-119 | Prefix by task type, issue number and that slug |
| `SlugWords.SlugIsWords` | internal/adr/adr.go:146-158 | The slug of a title is its runs of ASCII letters and digits, in lower case, joined by dashes |
| `SlugWords.PrefixByType` | internal/cli/helpers_legacy.go:94-103 | The prefix is `fix` exactly for bug, fix and hotfix, `chore` exactly for chore, else `feat` |
| `Adr.NumberSurvivesFileName` | internal/adr/adr.go:97-112 | The number is read back off the file name exactly up to 9999, for both trees and any slug |
| `Adr.NamesOfTrees` | internal/adr/adr.go:160-168 | A file name is at least four digits of the number, a dash, the slug and ".md", with "ADR-" in front in the host tree |
| `Adr.ParsedIsBounded` | internal/adr/adr.go:97-112 | No file name parses to more than 9999 |
| `Adr.Max` | internal/adr/adr.go:114-144 | The highest number among the plain files that parse, 0 if there is none |
| `Adr.HighestIsUnique` | internal/adr/adr.go:114-144 | There is one such number, of at most four digits |
| `Corpus.Directory.Reserve` | internal/adr/adr.go:268-344 | How it ends and which files there are then, for every pattern of answers: the number is one above the highest, the file is new, its body is what is written; a dry run and every refusal leave the files alone |
| `Corpus.ReservesExactly` | internal/adr/adr.go:268-344 | A number is given out if and only if the title has a slug, the tree could be locked and listed and, unless it is a dry run, the name is free and the file could be created and written |
| `Corpus.NextAfter` | internal/adr/adr.go:114-168 | A reservation raises the highest number by one until 9999, then no more |
| `Corpus.PresentMeansFull` | internal/adr/adr.go:320-331 | With nobody else writing, an existing file of the next name means that the numbers have run out |
| `AdrReserve.ReservedNumbersAreDistinct` | internal/adr/adr.go:251-344 | In any interleaving with writers that create, overwrite and remove, two calls reserve the same number only if it is 10000 or one's file was removed between its creation and the other's scan; a number exceeds those of all files that stayed from lock to scan |
| `AdrReserve.DistinctWithoutRemovals` | internal/adr/adr.go:251-344 | While nobody removes the files of two calls, their numbers of at most four digits differ, and the files are on disk |
| `AdrReserve.NumberComesBackExactly` | internal/adr/adr.go:285-300 | A call reserves a number up to n if and only if its scan saw no file numbered n or more |
| `AdrReserve.RemovedNumberReturns` | internal/adr/adr.go:114-144 | A run of an empty corpus in which 1 is reserved, its file removed, and 1 reserved again |
| `AdrReserve.NumberIsScanned` | internal/adr/adr.go:285-300 | A number comes from the call's own scan |
| `AdrReserve.ReservedExactly` | internal/adr/adr.go:251-344 | A call reserves 10000 if and only if its scan saw a file numbered 9999; otherwise its number has at most four digits, and who else has it needs a removal in between |
| `AdrReserve.OneCallAtATime` | internal/adr/adr.go:347-366 | At most one call is between taking and releasing the lock |
| `AdrReserve.NothingIsOverwritten` | internal/adr/adr.go:321-331 | No call removes a file or changes one it did not create, whatever writers without the lock do |
| `AdrReserve.DryRunsConsumeNothing` | internal/adr/adr.go:257-309 | A dry run never reserves, creates or writes |
| `AdrReserve.NumbersRunOut` | internal/adr/adr.go:160-168 | A run in which two reservations get 10000 |
| `CommandTree.SurfaceKeys` | internal/cli/check_handlers.go:656-711 | Walking the cobra tree returns the dotted leaf keys without built-ins, sorted |
| `Dispatcher.BuildDispatched` | internal/cli/dispatcher.go:30-77 | The root gets exactly the compiled domains; a schema that does not load adds nothing |
| `Dispatcher.AttachDomainCommand` | internal/cli/dispatcher.go:160-204 | What is attached is the compiled command, and the count returned is the number of leaves attached |
| `Dispatcher.DispatchIsExact` | internal/cli/dispatcher.go:47-76 | Reading the dispatched tree back gives exactly the leaf keys that are not in development, not overridden and have a handler |
| `LeafHandlers.DispatchedRuns` | internal/cli/dispatcher.go:160-204 | Walking the dispatched tree by names: a command runs a handler if and only if that is registered under the names joined by dots and the schema has a published leaf of these names, and it takes at least the arguments that names |
| `LeafHandlers.PathsAreTyped` | internal/cli/check_handlers.go:656-711 | On any tree the paths on the surface are exactly the names that can be typed down to a visible command that runs something |
| `LeafHandlers.UseLineReads` | internal/cli/dispatcher.go:206-221 | The use line is the name and the arguments in angle brackets, with blanks between them |
| `LeafHandlers.KeysExactly` | internal/sst/cli_index.go:28-51 | The stamped keys are the names of all leaf commands joined by dots; the published ones those with nothing in development on the way |
| `Dispatcher.AttachedHasLeaves` | internal/cli/dispatcher.go:174-190 | A count of zero means that nothing was attached |
| `Dispatcher.DispatchedIsFilled` | internal/cli/dispatcher.go:160-204 | No group without a command below it appears |
| `DriftGate.Registry.Register` | internal/cli/handler_registry.go:69-82 | A handler is added under a new key; a nil handler or a taken key is refused and changes nothing |
| `DriftGate.Registry.RegisteredKeys` | internal/cli/handler_registry.go:96-108 | The registered keys, sorted, each once |
| `DriftGate.ComputeSchemaDrift` | internal/cli/check_handlers.go:189-223 | Missing, orphaned and unstamped are the sorted differences, with multiplicity |
| `DriftGate.WithoutIsComplement` | internal/cli/check_handlers.go:189-223 | A difference is empty if and only if every key is known |
| `DriftGate.NothingMissingMeansPublished` | internal/cli/check_handlers.go:172-223 | With no overrides, nothing is missing if and only if the dispatched surface is the published keys; the surface is always stamped |
| `DriftGate.CheckBuiltTree` | internal/cli/check_handlers.go:231-292 | Building a tree, walking it and computing the drift: no key is unstamped, and the verdict on missing keys is the truth about the tree |
| `DriftGate.DevelopmentHandlerIsQuiet` | internal/cli/check_handlers.go:172-223 | A handler for a command in development adds no surfaced key, no missing and no orphaned one |
| `CommandStatus.DisableSubtree` | internal/cli/command_status.go:149-161 | Every command of the subtree is hidden, takes any arguments and answers offline with its own path |
| `CommandStatus.ApplyDecommissions` | internal/cli/command_status.go:129-147 | The tree becomes the one with exactly the decommissioned commands and "parent child" paths disabled |
| `CommandStatus.DecommissioningFilters` | internal/cli/command_status.go:129-147 | The surface afterwards is the surface before without the keys under a decommissioned name or path, in order |
| `CommandStatus.DisabledAnswersOffline` | internal/cli/command_status.go:149-161 | Every node of a disabled subtree answers with the offline error for its path |
| `CommandStatus.DecommissionedTwice` | internal/cli/command_status.go:129-161 | Applying it twice is applying it once |
| `OfflineAnswers.CommandsAnswer` | internal/cli/command_status.go:129-161 | Walking the same names leads to the same commands before and after; under an offline name or "parent child" they answer offline with their own path and the reason given there, all others as before |
| `IssueBody.StripIssueMeta` | internal/cli/github_sync.go:600-615 | The filtering loop computes the trimmed text of the lines that are no metadata |
| `IssueBody.StrippedTwice` | internal/cli/github_sync.go:600-615 | Stripping is idempotent, and leaves alone any trimmed body without metadata lines |
| `IssueBody.StampIsStripped` | internal/cli/github_sync.go:436-442 | A body with a stamped Task ID line strips to what the body strips to |
| `IssueBody.StrippedShows` | internal/cli/github_sync.go:600-615 | What is left holds no line that opens with a bold Task ID, Priority, Type, Session or Epic, and every other line that is not blank |
| `IssueFields.StampedFields` | internal/cli/github_sync.go:471-529 | After the stamp the id is read back unless the body names one; priority, epic and dependencies read as before |
| `IssueFields.DepsAreIds` | internal/cli/github_sync.go:509-521 | Dependencies are exactly the words of eight hex digits on the dependency line, each once, and none if the line says none |
| `IssueFields.HexWordsExactly` | internal/cli/github_sync.go:481-483 | The words read are exactly the runs of eight hex digits with no word character on either side |
| `GithubSync.Sync.SyncOne` | internal/cli/github_sync.go:213-412 | One issue's lookups, write and stamp, for every pattern of failing calls; a dry run changes nothing |
| `GithubSync.Sync.Changes` | internal/cli/github_sync.go:282-330 | An update is needed exactly when a field differs from what the issue says, and brings all of them in line |
| `GithubSync.Sync.Resolve` | internal/cli/github_sync.go:110-121 | The cache never answers differently from the database |
| `GithubSync.Sync.StampTaskId` | internal/cli/github_sync.go:416-459 | Only the issue's own body is changed, and only when it still names no task |
| `GithubSync.Sync.Run` | internal/cli/github_sync.go:162-164 | The pass over all issues is a sequence of such steps |
| `SyncSays.DescriptionsAgree` | internal/cli/github_sync.go:582-597 | Two issues have the same description if and only if number, address and text without metadata agree |
| `SyncSays.DescriptionReads` | internal/cli/github_sync.go:582-597 | A description is the number's line, the address's line and, behind an empty line, all of the text that is no metadata |
| `SyncSays.SprintGoes` | internal/cli/github_sync.go:576-580 | A sprint's number in brackets in front of a title goes, with the blanks behind it |
| `SyncSays.OtherTitleStays` | internal/cli/github_sync.go:576-580 | A title that does not start with a sprint's number in brackets is left alone |
| `SyncSays.TitleBehindPrefixes` | internal/cli/github_sync.go:576-580 | Then a short id in brackets goes the same way, and a title without one is left alone |
| `SyncSays.PriorityOfLine` | internal/cli/github_sync.go:473-497 | The line behind the first priority mark that is followed by P and a digit from 1 to 4 is the one that is read |
| `SyncSays.PriorityIsHighest` | internal/cli/github_sync.go:531-545 | The priority read is the highest the line speaks of, by number or name; without such a line there is none |
| `SyncSays.NamedPriority` | internal/cli/github_sync.go:531-545 | A line that names Pn has the n-th priority if and only if it speaks of no higher one besides |
| `SyncSays.FormerPriorityCounts` | internal/cli/github_sync.go:531-545 | `P2 (was P1)` is read as urgent |
| `SyncSays.EpicsAgree` | internal/cli/github_sync.go:110-121 | Two epic names are looked up by the same key if and only if they agree up to the case of ASCII letters and outer blanks |
| `SyncSays.EpicOfLine` | internal/cli/github_sync.go:474-500 | The epic is the line behind the first mark and blanks |
| `SyncSays.TaskIdOfLine` | internal/cli/github_sync.go:472-494 | A Task ID is read behind its mark and blanks, with or without a backquote |
| `SyncSays.DependenciesOfLine` | internal/cli/github_sync.go:476-521 | So is the line of dependencies |
| `SyncSays.WhatIsWritten` | internal/cli/github_sync.go:246-412 | What each write makes of the task, field by field |
| `SyncSays.EditIsNoticed` | internal/cli/github_sync.go:282-358 | After an edit of an open issue the next step attempts an update of its task if and only if number, address, text without metadata, title, or a priority or epic it names says something new |
| `SyncSays.FoundByIdFirst` | internal/cli/github_sync.go:220-244 | A task found has the Task ID of the body, which is looked for first, or the reference of the issue |
| `SyncSays.StampNamesTask` | internal/cli/github_sync.go:400-459 | A body changes only when a task is made for an issue that names none and all calls succeed; then it names the new task and says the same otherwise |
| `SyncConverges.StepSettles` | internal/cli/github_sync.go:213-412 | A successful step keeps what its issue leads to, or makes its new task the only one; after a step that found none nothing is left to do for the issue |
| `SyncConverges.StepSpares` | internal/cli/github_sync.go:213-412 | A step for one issue leaves what is found for another alone, and the other's task in line, unless both are open and lead to the same task |
| `SyncConverges.SecondPassIsQuiet` | internal/cli/github_sync.go:213-459 | If no issue leads to two tasks and no two open ones to the same, a pass without failures is followed by one that writes no task and no stamp, over issues stamped or not |
| `SyncConverges.SecondPassIsQuietExactly` | internal/cli/github_sync.go:213-459 | Every second pass, whichever tasks the database answers, writes nothing if and only if no two open issues led to the same task before the first and every task an issue led to was in line, found for it, or to be closed and found for a closed issue |
| `SyncConverges.TwoPassesSettleExactly` | internal/cli/github_sync.go:213-459 | Before both passes: the second is quiet whatever the database answers in either, if and only if no two open issues lead to the same task and every task an issue leads to is in line, the only one, or sure to be closed by another closed issue |
| `SyncConverges.AllSettledExactly` | internal/cli/github_sync.go:213-412 | After the first pass nothing is left to do for any issue under exactly that condition |
| `SyncConverges.OneTaskEachIsCovered` | internal/cli/github_sync.go:213-412 | Where each issue leads to at most one task the pass covers every task |
| `SyncConverges.TwoTasksAreNotCovered` | internal/db/tasks.go:180-208 | An open issue with two tasks out of line leaves one of them so, whichever the pass finds |
| `SyncConverges.SharedTaskNeverSettles` | internal/cli/github_sync.go:282-358 | Two open issues that find the same task make every pass attempt a write |
| `SyncConverges.FailedLookupDuplicates` | internal/cli/github_sync.go:236-244 | An open issue that has a task gets a second one if and only if the write succeeds and neither lookup answers, spelled out in the lookups that work, the Task ID and the tasks there are |
| `GithubPick.IssuePriorityRank` | internal/cli/github_pick.go:466-493 | The loop over labels with early exit computes the rank |
| `GithubPick.RankIsFirstLabel` | internal/cli/github_pick.go:466-493 | The first label naming a priority decides, else the body; 5 exactly when neither says |
| `PickRanks.LabelRankExactly` | internal/cli/github_pick.go:466-481 | A label has rank n if and only if it starts with P or p and the digit n, from 1 to 4 |
| `PickRanks.RankExactly` | internal/cli/github_pick.go:466-493 | The rank is the digit of the first priority label, else the number of the priority the body names, and 5 exactly when neither names one |
| `GithubPick.LessIsStrictWeakOrder` | internal/cli/github_pick.go:383-395 | The comparison is a strict weak order, as the stable sort needs |
| `GithubPick.SortByPriority` | internal/cli/github_pick.go:380-396 | Sorting in place leaves the issues in the stable order |
| `GithubPick.StableOrderIsUnique` | internal/cli/github_pick.go:380-396 | There is only one stable order, so it is what any stable sort gives |
| `GithubPick.DepsOk` | internal/cli/github_pick.go:313-345 | True if and only if every dependency is closed, done, cancelled, archived, or cannot be judged |
| `GithubPick.PickNextReady` | internal/cli/github_pick.go:112-134 | The issue picked is ready and comes before every other ready one; nothing is picked if and only if none is ready |
| `GithubPick.BestMeans` | internal/cli/github_pick.go:112-134 | No ready issue has a better rank, or the same rank and a higher score, and ties go to the earliest fetched |
| `GithubPick.BestIsUnique` | internal/cli/github_pick.go:112-134 | At most one issue can be picked |
| `PickRanks.PickedByPriority` | internal/cli/github_pick.go:112-134 | The issue picked names no lower priority than any other ready one, P1 before P2, P3, P4 and none; then the higher score decides, then the order of fetching |
| `PickRanks.WaitsExactly` | internal/cli/github_pick.go:313-345 | An issue is not ready if and only if its dependency line names a task that no closed issue has and that the database knows as neither done, cancelled nor archived |
| `CommitGraph.RebasedBase` | internal/cli/release_propagate.go:229-248 | After a rebase onto a commit of main that keeps no commit of main, that commit is the only merge base with main |
| `CommitGraph.KeptIsNoBase` | internal/cli/release_propagate.go:229-248 | If a kept commit is on main, it is no merge base |
| `CommitGraph.LinearMergeBase` | internal/cli/release_propagate.go:222-229 | On a linear main every common commit is behind the merge base |
| `CommitGraph.ChainAncestors` | internal/cli/release_propagate.go:235-242 | Behind replayed commits are those commits and what was behind their base, and no old commit changes |
| `Propagate.Worktree.PropagateWorktree` | internal/cli/release_propagate.go:169-286 | How it ends and what is left behind, for every pattern of answers; on success CI ran once, on the worktree as fetched or rebased, clean, sharing exactly the commit asked for with the fetched main, and that head is the head there is; rebases start on the fetched worktree, clean, and not onto an ancestor of the base; what each refusal means; dirty trees and dry runs are not touched |
| `Propagate.SucceedsExactly` | internal/cli/release_propagate.go:169-286 | Propagating succeeds if and only if it is no dry run, every git command runs, the tree is clean, main holds the commit asked for, the base is that commit before or after a rebase that is called for and succeeds, and CI is green on a head that does not move |
| `Propagate.Worktree.RebaseAndTest` | internal/cli/release_propagate.go:229-285 | The same from the moment it is known where to go |
| `Propagate.Worktree.Survey` | internal/cli/release_propagate.go:183-227 | The checks before anything moves: what is fetched, which commit is asked for, that main holds it, and the base |
| `Propagate.Worktree.MoveOnto` | internal/cli/release_propagate.go:229-242 | A rebase only when the base is another commit and not newer; a conflict that is aborted leaves the worktree as it was |
| `Propagate.Worktree.TestHead` | internal/cli/release_propagate.go:249-285 | CI counts exactly when it was green, head did not move and the tree is clean |
| `Propagate.BaseMovesForward` | internal/cli/release_propagate.go:229-242 | On a linear main a rebase moves the base forward |
| `Propagate.RecheckPassesExactly` | internal/cli/release_propagate.go:243-248 | After a rebase the target is the merge base, and the only one, if and only if no kept commit is on main |
| `Propagate.RebaseCanMissExactly` | internal/cli/release_propagate.go:229-248 | Before the rebase: it can leave another merge base if and only if a commit that main and the worktree both hold has the target as its one parent |
| `Propagate.LinearMainPasses` | internal/cli/release_propagate.go:229-248 | On a linear main a rebase that was called for leaves the target as merge base |
| `Propagate.RecheckCanRefuse` | internal/cli/release_propagate.go:243-248 | A graph of six commits with merges on which a rebase that was called for does not |
| `AgentRecords.NamesDiffer` | internal/agent/state.go:80-110 | A temporary name is no record's name and invisible to readers; two agents have different record names |
| `AgentRecords.RecordIsSeen` | internal/agent/state.go:145-163 | A record is seen under its own id, unless the id ends in ".tmp" |
| `AgentRecords.Find` | internal/agent/state.go:145-174 | Found if and only if exactly one record's id starts with the request; none and several are told apart |
| `AgentRecords.LookupByPrefix` | internal/agent/state.go:145-174 | Among records and temporary files the ids considered are exactly those that start with the request and do not end in ".tmp" |
| `AgentRecords.Directory.Save` | internal/agent/state.go:105-141 | The record is replaced as a whole, or no record file changes |
| `AgentRecords.Agent.RefreshStatus` | internal/agent/status.go:18-41 | When the poll changes the record, what it becomes, and that it is saved exactly if every step of the save goes well |
| `AgentRecords.Agent.Stop` | internal/agent/status.go:81-117 | The record becomes exited, keeping an earlier exit time, and is saved exactly if every step of the save goes well |
| `AgentRecords.PollFindsOut` | internal/agent/status.go:18-41 | A poll changes exactly a running record whose process is gone or never was: exited as of now, or failed with a reason; the exit code stays |
| `AgentRecords.EndIsRecorded` | internal/agent/status.go:81-117 | What stopping and waiting leave in a record: exited, its time, and the exit code if there is one |
| `AgentRaces.ReadersSeeWhole` | internal/agent/state.go:88-141 | In any interleaving a reader finds no record or one complete record of that agent |
| `AgentRaces.RenamesSucceed` | internal/agent/state.go:88-141 | In any interleaving a rename finds its temporary file, complete, and puts the record in place |
| `AgentRaces.StatusNeverReturnsToRunning` | internal/agent/spawn.go:115-146 | In any interleaving of spawner, reaper, pollers and stoppers a stored record is never lost, its launch never changes, and a status that has left running stays away from it |
| `AgentRaces.RecordsTell` | internal/agent/spawn.go:115-146 | In any interleaving every record held or stored tells what it should: an exited one its time, a failed one its reason, a running one neither time nor code |
| `AgentRaces.ExitCodeCanBeLost` | internal/agent/status.go:18-41 | A run in which the reaper's exit code is overwritten |
| `AgentRaces.ExitCodeKeptExactly` | internal/agent/status.go:18-41 | In any state of any run a stored exit code survives every continuation if and only if all processes still there with a record of the agent hold that code |

## Left out

- All process execution, HTTP, AWS, docker, Postgres, `gh` and `git`: their answers are parameters.
- Report text, colours, JSON, comments on issues, notifications, telemetry, and the priority label that sync adds: none feeds back into a decision modelled here.
- Time as dates: clock values are integers.
- Case folding and slugs beyond ASCII letters, and invalid UTF-8: strings are sequences of characters; only the glob compiler, which walks bytes, is modelled on the UTF-8 encoding.
- `strconv.Quote` writes non-printable characters beyond ASCII as escapes; the model keeps every character beyond ASCII as it is.
- `path/filepath` cleaning of file names, the header text of the ADR skeleton, and the missing-directory error of `os.ReadDir` are answers of the file system.
- cobra's own behaviour: flag plumbing, help text and the lazy sorting of children. The surface is compared as a sorted list.
- The development-domain switch is a parameter of the dispatcher; reading it from the environment and the workspace profile is not modelled.
- The sync's create path also stores task type and acceptance criteria; no later pass compares them, so they are not fields of the model's task.
- How a strategy scores an issue: the score is a function of the issue.
- GithubPick.SortByPriority: an insertion sort stands for `sort.SliceStable`, which is not part of this model; any stable sort gives the same list by `GithubPick.StableOrderIsUnique`.
- Reconcile.Host.RunTick: one pass reads each task's answers once; answers that change between two reads of one task within a tick are not modelled.
- AdrReserve.ReservedNumbersAreDistinct: distinctness is false at 10000 and after a removal; when a call gets such a number is `AdrReserve.ReservedExactly` and `AdrReserve.NumberComesBackExactly`.
- Propagate.Worktree.TestHead: others may act on the repository and the worktree only while CI runs.
- AgentRaces.ExitCodeKeptExactly: a record that says running has no exit code, as every record this program writes.
- SectionReading.EditIsMapUpdate: a header with a comment is none for this reader; one that knows it is `TableReading.EditIsTableUpdateExactly`.
- CodexFixpoint.SettlesInTwoRuns: headers inside multi-line strings are outside the line-level reading of TOML.
- Propagate.Worktree.PropagateWorktree: a rebase is described by the commits it keeps and replays, not by their contents.
- AgentRecords.Agent.Stop: the signal to the process and the removal of the worktree are not modelled.
- AgentRaces.StatusNeverReturnsToRunning: a spawn that reuses an existing agent's id is excluded; the caller-supplied id is taken to be new.
- The audit scanner, council, browser, CDN, code generation, hooks, local stack, blueprints, health, deploy and infrastructure handlers, and the retired stubs: mostly input and output, or members too easy to add value.

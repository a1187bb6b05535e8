# Verified models of the tast test framework

Dafny models of the parts of tast that decide which test runs when, on what, and how often, and of the protocols
around them. `dafny verify dfyconfig.toml` checks everything.

Tests, fixtures, the network and the disk are nondeterministic: a SetUp, a Reset, a test or an attempt of an external
bundle may succeed or fail at every call, and user code may hang, which ends the run with an error. Results therefore
hold for every pattern of failures. A constant `faultless` excludes what goes wrong outside the framework (user code
that ignores its timeouts, failing disk or network operations), but never a SetUp, Reset or test that fails; results
with it say what must then succeed. A constant `steady` excludes failing resets.

| files | what they model |
|---|---|
| Common | an option type and faults of the environment |
| Events | the history of a run: its events, its law, and what it delivers |
| FixtureStacks | the stack of fixtures, with or without a parent stack in another bundle |
| FixtureTree, FixtureWalk | fixture trees, the account of what they owe, and the walk `runFixtTree` |
| Retry | the per-test retry loop for an external bundle, and what the planner makes of its results |
| FixtureGraph, FixturePlan, PlanTree, Planner, Sorting | start fixtures, orphans and the fixture tree, the whole plan, and running it |
| ExtData | external data files: links, use counts, download jobs, downloads, and the planner's downloader |
| RemoteLog | the remote logging protocol as a step system over all interleavings |
| ResumingReader | the download reader that reopens broken streams |
| DoAsync, SshCmd | cancellable operations as a step system, and the life cycle of an SSH command |
| ShellQuote | shell escaping against a reader of shell words |

How the walk is accounted for: there is one history of events, which the output stream keeps: starts, outcomes and
ends of tests, calls of fixture methods, what the parent stack reports, what another bundle does to the stack, and
failures that end the run. Its law (`Events.Lawful`) says which event may follow which: a test function is called only
right after the start of its test and when exactly the fixtures on the stack are set up, all of them, and the parent
stack, set up or reset since they were last used; a test gets the errors of a fixture only if the SetUp of the first
fixture on its path that is not set up has just failed, or the parent stack is red; only a test on no fixtures is
reported as skipped or orphaned; only fixtures that are set up are reset, and only the last one is torn down; after a
failure nothing happens but the error and the end of the test at hand. Every event also delivers facts (a test started
on this path, on a clean stack; it ran; it was reported; it ended; the result of an external test was kept, under this
path), every tree owes facts, and `Conserves` says that delivered plus pending stays constant for each fact, or, on
the way out with an error, does not grow. A fact that is never owed, such as a start on a dirty stack, or a report for
a test in the tree, can therefore never occur.

## Where the code and its documentation part

- A skipped external test is filed under the fixture name "" (`internal/planner/run.go:373-375`). With another start
  fixture it is neither run nor reported; `Planner.Conservation` gives the exact condition. It can also leave an empty
  subtree, against the comment on `fixtTree`; `PlanTree.NoEmptyIffNoIdle` gives the exact condition, and
  `PlanTree.SkippedExternalTestIdles` an input.
- A walk does not always leave the stack dirty (`internal/planner/run.go:514-515`). If it ends on a yellow stack, that
  is clean. If it ends with external tests, it leaves the stack as their run did, and that is clean for tests that are
  only reported as skipped. If the last child is an empty subtree, the stack is clean too. In all other cases it is
  dirty (`FixtureWalk.RunFixtTree`, `FixtureWalk.SkippedExternalTestLeavesClean`).
- With retries, a failed result waiting for its retry is not kept. If the following attempt runs nothing, because a
  fixture failed, `runExternalTests` returns an error and the whole run ends, as if no test had run
  (`internal/planner/external.go:119-122`); `Retry.RunExternalTests` gives the exact condition, and
  `Retry.RetriedFailureEndsRun` an input.
- A call waits for the number of the last log entry of the server. A client that subscribes after the server has
  logged, and whose call logs nothing, waits for an entry it will never get; `RemoteLog.QuietWait` gives the exact
  condition.
- The comment on `doAsync` promises the error of ctx and a call of clean whenever ctx is cancelled before body
  finishes. That holds if ctx is cancelled at the first check (`DoAsync.CancelledBeforePoll`), and in no other case
  (`DoAsync.AfterPollEitherWay`). It promises the result of body if body finishes before ctx is cancelled. That holds
  if ctx is not cancelled before the caller takes the result, and in no other case (`DoAsync.FinishedBodyEitherWay`).
- Pipes are said to be closed automatically when the deadline is reached, Abort is called or the command exits.
  Nothing watches the deadline between Start and Wait: a pipe then stays open until Abort, Wait or the end of the
  stream (`SshCmd.Cmd.OpenWhileStarted`, `SshCmd.DeadlineLeavesPipeOpen`). A pipe that is made after Abort stays open
  for good iff the session cannot be set up, since then no copier closes it (`SshCmd.RunWithPipes`,
  `SshCmd.LatePipeStaysOpen`).
- A download whose stream breaks after the last byte may end in an error, although all bytes were read: a range that
  begins at the end of a file cannot be satisfied (`ResumingReader.Reader.Read`).
- With a parent stack, marking a dirty stack dirty is not an error: the error of the child's MarkDirty is dropped
  (`internal/planner/internal/fixture/combined_stack.go:144-154`). SetUp of a fixture runs although the parent stack
  is red, since only the child's status is looked at (`FixtureStacks.SetUpUnderRedParent`).

## Assumptions

- Parents of fixtures are acyclic; the source recurses forever otherwise.
- An external bundle reports only tests that it was asked to run (`Retry.Honest`), sends a yellow stack nothing more,
  and a green parent stack answers a reset with green or yellow.
- External tests occur only with an external target, that is, with a combined stack.
- Writing an error record succeeds, and link files do not change during a run.
- A body opened at an offset streams the file from that offset (section 14.1.2 of RFC 9110).
- Log entries arrive in the order in which they are sent.

## Model

| member | source | states |
|---|---|---|
| `FixtureStacks.StatusMeaning` | src/go.chromium.org/tast/core/internal/planner/internal/fixture/internal_stack.go:135-142 | On every stack that keeps the status discipline, the first-status-that-is-not-green rule computes the documented meaning: yellow iff some fixture is yellow, red iff some fixture is red, green iff all are green. |
| `FixtureStacks.FixtureStack.Push` | src/go.chromium.org/tast/core/internal/planner/internal/fixture/internal_stack.go:197-237 | SetUp is called once iff the fixtures of the bundle are green, and the new fixture is green iff it succeeded; the discipline is kept and a stack that is not yellow does not become yellow; a stack with red fixtures is one on which the SetUp of the lowest of them is the last call in the history, and failed; rejected exactly on a yellow stack. |
| `FixtureStacks.SetUpUnderRedParent` | src/go.chromium.org/tast/core/internal/planner/internal/fixture/combined_stack.go:65-67 | A stack at which SetUp is called although the parent stack is red. |
| `FixtureStacks.FixtureStack.Pop` | src/go.chromium.org/tast/core/internal/planner/internal/fixture/internal_stack.go:242-251 | Removes the top fixture only, and tears it down iff it is not red, which is then the fixture that was set up last. |
| `FixtureStacks.FixtureStack.ResetInternal` | src/go.chromium.org/tast/core/internal/planner/internal/fixture/internal_stack.go:267-291 | Clears the dirty flag; resets every fixture bottom to top up to and including the first failure, which alone becomes yellow; a red stack is left alone; rejected exactly on a yellow stack. |
| `FixtureStacks.FixtureStack.Reset` | src/go.chromium.org/tast/core/internal/planner/internal/fixture/combined_stack.go:78-112 | With a parent stack: what a reset can do to all fixtures together is nothing, or, if all are green, make exactly one of them or the parent yellow; the own fixtures are reset only if the parent stayed green. Afterwards the green fixtures below any yellow one, and a green parent stack, have all been reset since they were last used. |
| `FixtureStacks.FixtureStack.MarkDirty` | src/go.chromium.org/tast/core/internal/planner/internal/fixture/combined_stack.go:144-154 | A second call without a reset in between is rejected exactly if there is no parent stack. |
| `FixtureStacks.FixtureStack.ServeExternalBundle` | src/go.chromium.org/tast/core/internal/planner/internal/fixture/stack_server.go:47-84 | Any sequence of requests of another bundle that change the stack leaves it valid and no worse than one failed reset would. All requests are served, or those up to the first reset that fails: the dirty flag is that of the last request served, and the history has grown by exactly the resets of a green stack and the marks of dirt, in order. |
| `FixtureStacks.LiveKept` | src/go.chromium.org/tast/core/internal/planner/internal/fixture/internal_stack.go:57-76 | A failed reset changes the status of a fixture, but not which fixtures are set up. |
| `Events.NothingAfterFailure` | src/go.chromium.org/tast/core/internal/planner/run.go:522-587 | In every lawful history, once user code has ignored its timeout or a directory or network operation has failed, no test is started, no test function called and no fixture method; only the error and the end of the test at hand follow. |
| `FixtureTree.EmptyMeansNothingOwed` | src/go.chromium.org/tast/core/internal/planner/run.go:286-303 | With no empty subtree, the constant-time emptiness test holds iff the whole tree owes no test anything. |
| `FixtureWalk.Clone` | src/go.chromium.org/tast/core/internal/planner/run.go:305-317 | The copy is a fresh object graph that represents the same tree, so the walk cannot change the plan. |
| `FixtureWalk.RunTest` | src/go.chromium.org/tast/core/internal/planner/run.go:696-746 | Without an error the events of a test are exactly its start, on the fixtures of the stack and clean iff the stack was, then on a green stack the call of its function, and possibly an error, or on a red stack the errors of a fixture, then its end; the call is lawful only if exactly the fixtures of the stack are set up and, on a clean stack, all have been set up or reset, without error, since the last test of any bundle, the parent stack included; the fixture errors only if the SetUp of the first one that is not has just failed or the parent stack is red. On an error, less. The stack is dirty afterwards. |
| `FixtureWalk.RunTestOnStack` | src/go.chromium.org/tast/core/internal/planner/run.go:714-739 | The function of the test is called on a green stack, and the errors of a fixture are reported on a red one. Nothing happens if the stack cannot be marked dirty. The files given to the test to purge are exactly those on disk that nobody uses; in lazy mode the files that may be purged while a test runs contain no external data file of the test, nor of any fixture on the stack: on a faultless disk none whose link loads, on any disk none whose link was loaded. |
| `FixtureWalk.RunDirectTests` | src/go.chromium.org/tast/core/internal/planner/run.go:533-545 | The first loop ends with no direct test left or a yellow stack; no test is lost; each that is gone was run exactly once, that is, its function was called or it got the errors of a fixture, as the law of the history says when; every test finds a clean stack whose fixtures have all been set up or reset since they were last used. |
| `FixtureWalk.RunExternalOnce` | src/go.chromium.org/tast/core/internal/planner/run.go:549-556 | The error for a run that succeeded without running a test is unreachable. |
| `FixtureWalk.RunExternal` | src/go.chromium.org/tast/core/internal/planner/run.go:546-557 | The second loop terminates with no external test left or a yellow stack; every external test has its result kept once, under the right fixtures; the stack is as the last run left it. |
| `FixtureWalk.RunChildren` | src/go.chromium.org/tast/core/internal/planner/run.go:560-582 | The third loop terminates although a reset can turn the recursive call into a no-op; it removes only subtrees that have become empty, and ends with none left or a yellow stack. Before each child, and whenever tests are left, the stack has been reset since it was last used, by this bundle or another. |
| `FixtureWalk.RunFixtTree` | src/go.chromium.org/tast/core/internal/planner/run.go:510-594 | For every pattern of SetUp, Reset and test failures: the walk terminates; it ends with an error iff a failure that must end the run is in the history; no BUG error occurs, and no error at all if nothing outside the framework goes wrong and no attempt of the other bundle is empty; the history stays lawful, so every test function is called on fixtures that have been set up or reset, without error, since any test last used them; without an error the tree is empty or the stack yellow and clean, each test that is gone from the tree was started, run (its function called, or fixture errors reported) and ended exactly once, and never only reported as not run, fixtures are restored up to one failed reset, and the same fixtures are set up as before. A non-empty tree that becomes empty leaves the stack dirty iff the walk ends with tests of this bundle, or with external tests whose last run left it dirty. |
| `FixtureWalk.WalkSilently` | src/go.chromium.org/tast/core/internal/planner/run.go:511-515 | The comment that a walk leaves the stack dirty fails for every bundle that calls no test function: the walk of its tests ends on a clean, green stack. |
| `FixtureWalk.SkippedExternalTestLeavesClean` | src/go.chromium.org/tast/core/internal/planner/run.go:511-515 | One such input: a test that the other bundle only reports as skipped. |
| `Retry.RunTestsWithRetry` | src/go.chromium.org/tast/core/internal/minidriver/run_tests.go:247-299 | At most n * (retryn + 1) attempts for n tests. If a test is reported at most once per attempt, then on success every test has exactly one kept result, the last one reported, and a kept failure is failure number retryn + 1; tests without a kept result have had only failures, within their budget. If every attempt works and runs something, it succeeds. Without retries everything reported is kept. If an attempt fails as a whole, what it had reported is kept. |
| `Retry.Absorb` | src/go.chromium.org/tast/core/internal/minidriver/run_tests.go:281-295 | Each result of an attempt strictly decreases the remaining retries and runs, and keeps the account of every test. |
| `Retry.RemainingInitially` | src/go.chromium.org/tast/core/internal/minidriver/run_tests.go:248-253 | The termination measure starts at n * (retryn + 1). |
| `Retry.RunExternalTests` | src/go.chromium.org/tast/core/internal/planner/external.go:116-137 | Without an error the tests split, as multisets, into started and unstarted ones, and fewer are unstarted than were asked for; none if the inner run succeeded. The error for an empty last attempt is passed on iff every test still awaits a retry or its first run; without retries, iff the first attempt works but runs nothing. |
| `Retry.RetriedFailureEndsRun` | src/go.chromium.org/tast/core/internal/planner/external.go:119-122 | An input: one test, one retry, a failure and then an empty attempt end in the error, although the test has run. |
| `Retry.Split` | src/go.chromium.org/tast/core/internal/planner/external.go:131-135 | Nothing is lost or duplicated between started and unstarted. |
| `FixtureGraph.StartFixtures.FindStart` | src/go.chromium.org/tast/core/internal/bundle/service.go:155-179 | The memoised search returns the ancestor at which the way up leaves the bundle, whatever is memoised already. |
| `FixtureGraph.StartFixtures.FindAll` | src/go.chromium.org/tast/core/internal/bundle/service.go:155-179 | For every iteration order of the map, every fixture gets its first absent ancestor. |
| `FixtureGraph.StartFixtures.StartOfTest` | src/go.chromium.org/tast/core/internal/bundle/service.go:121-153 | The start fixture of a test is the first of its fixture and that fixture's ancestors that the bundle does not have. |
| `FixtureGraph.LeavesAtOnce` | src/go.chromium.org/tast/core/internal/bundle/service.go:155-179 | There is at most one such fixture, so this is a definition of it. |
| `FixturePlan.StartFixtureIsTheRoot` | src/go.chromium.org/tast/core/internal/planner/run.go:344-361 | Of the names that are no fixtures of the bundle, the reported start fixture is the only one with which the planner finds the test rooted. |
| `FixturePlan.Builder.Traverse` | src/go.chromium.org/tast/core/internal/planner/run.go:344-361 | True iff the start fixture is the fixture or one of its ancestors; then exactly the ancestors below the start fixture have been added, each once under its parent; otherwise nothing has changed and the first absent ancestor is named. |
| `FixturePlan.NewTreeOccurs` | src/go.chromium.org/tast/core/internal/planner/run.go:425-444 | The tree holds each fixture of the graph below its root exactly once, and no other. |
| `FixturePlan.NewTreeParents` | src/go.chromium.org/tast/core/internal/planner/run.go:425-444 | Every node hangs below its own parent fixture. |
| `FixturePlan.FileTests` | src/go.chromium.org/tast/core/internal/planner/run.go:362-379 | Orphans are exactly the tests that are not rooted, with the missing ancestor; all others are filed, and the fixtures added are exactly those that a rooted test needs. |
| `FixturePlan.CountIsLanded` | src/go.chromium.org/tast/core/internal/planner/run.go:362-379 | The tree holds a test once for every occurrence of the fixture it is filed under. |
| `PlanTree.BuildFixtPlan` | src/go.chromium.org/tast/core/internal/planner/run.go:335-446 | The tree holds exactly the ancestor closure of the used fixtures, each once, under its own parent, in the order of the names. A test of this bundle is an orphan iff the way up from its fixture misses the start fixture, and an external test iff the way up from its start fixture does, each with the first fixture that is missing. All others hang in the tree, each counted once: a test of this bundle at its fixture, an external test at its start fixture, or at "", if the tree has that, if it is to be skipped. The tree has an empty subtree iff a fixture needed by some test is idle. |
| `PlanTree.HangsRight` | src/go.chromium.org/tast/core/internal/planner/run.go:362-379 | How many tests of a name hang at each fixture of the tree is the number of tests passed in that belong there, told from their fields alone. |
| `PlanTree.OrphansAre` | src/go.chromium.org/tast/core/internal/planner/run.go:362-369 | Each test is among the orphans as often as it was passed in if the way up from where it belongs misses the start fixture, and never otherwise. |
| `PlanTree.NoEmptyIffNoIdle` | src/go.chromium.org/tast/core/internal/planner/run.go:282-288 | The documented invariant that no subtree is empty holds iff below every fixture that a test needs, some test is filed. |
| `PlanTree.NoSkippedNoIdle` | src/go.chromium.org/tast/core/internal/planner/run.go:370-379 | It does hold if no external test is to be skipped. |
| `PlanTree.SkippedExternalTestIdles` | src/go.chromium.org/tast/core/internal/planner/run.go:373-375 | An input at which the invariant fails: the only test that needs a fixture is an external test to be skipped. |
| `PlanTree.PendingLeads` | src/go.chromium.org/tast/core/internal/planner/run.go:425-444 | Every start that the tree owes, and every run of an external test, is on the path, from parent to child, from the start fixture to the fixture of a test of this bundle, the start fixture of an external test, or "" for one that is to be skipped. |
| `Planner.Conservation` | src/go.chromium.org/tast/core/internal/planner/run.go:362-379 | Every test of this bundle lands exactly once in the tree or the orphans. For external tests this holds iff the tree has the fixture "" or no rooted external test is to be skipped. |
| `Planner.SkippedExternalTestLost` | src/go.chromium.org/tast/core/internal/planner/run.go:373-375 | A skipped external test under another start fixture is in neither. |
| `Planner.Classify` | src/go.chromium.org/tast/core/internal/planner/run.go:203-225 | The loop fails iff a test of this bundle does not exist; otherwise every test is in exactly one of the three lists, the one that its dependencies and precondition call for, and the list for the fixture plan is exactly the entities that are ready, in order. |
| `Planner.BuildPrePlans` | src/go.chromium.org/tast/core/internal/planner/run.go:227-236 | One plan per precondition, in order, none empty, holding only tests with that precondition; together they hold every such test once. |
| `Planner.BuildPlan` | src/go.chromium.org/tast/core/internal/planner/run.go:198-245 | Every test of this bundle lands in exactly one of the skipped tests, a precondition plan, the orphans or the tree, each where its dependencies, its precondition and its fixture put it; the fixture plan is the one for exactly the tests that are ready. |
| `Planner.Report` | src/go.chromium.org/tast/core/internal/planner/run.go:905-943 | For each skipped or orphaned test, exactly a start, a report and an end, in this order. |
| `Planner.RunPrePlan` | src/go.chromium.org/tast/core/internal/planner/run.go:610-646 | Without an error, the function of each test with the precondition is called once, on a stack that is clean because it is reset between tests; no test gets fixture errors. |
| `Planner.RunFixtPlan` | src/go.chromium.org/tast/core/internal/planner/run.go:455-482 | Delivers exactly what orphans and tree owe, unless the last status of the parent stack in the history is yellow, which it is only if it was yellow at first or a fixture failed to reset; the history stays lawful, and without an error no fixture is left set up in it. |
| `Planner.RunPlan` | src/go.chromium.org/tast/core/internal/planner/run.go:247-270 | Delivers exactly what the plan owes, unless the parent stack ends up yellow, on an error at most that; the history stays lawful, and without an error no fixture is left set up in it. |
| `Planner.PlanOwesTests` | src/go.chromium.org/tast/core/internal/planner/run.go:247-270 | What a plan owes is one start and one end for each test in it, one report and no run for skipped tests and orphans, one run and no report for all others, and one run elsewhere for each external test in its tree. |
| `Planner.PlanOwesPaths` | src/go.chromium.org/tast/core/internal/planner/run.go:247-270 | It owes starts only on clean stacks; with no fixtures only to skipped tests, orphans and tests with a precondition; all others, and all runs of external tests, on the path to the fixture of the test among the tests that were passed in. |
| `Planner.RunTests` | src/go.chromium.org/tast/core/internal/planner/run.go:176-182 | End to end, of the tests that were passed in: an error-free run finishes unless its parent stack ends up yellow; then every test of this bundle, and every orphaned external test, is started and ended exactly once; in between, exactly the tests with unmet dependencies and the orphans are reported, and every other test is run exactly once: its function is called, or it gets the errors of a fixture; every other external test is run elsewhere exactly once iff no rooted external test is to be skipped or the tree has the fixture "". Every start in any run is on a clean stack with the fixtures from the start fixture down to the test's own. The one history of tests and fixture calls is lawful, and without an error every SetUp in it is matched by a TearDown. There is no error if nothing outside the framework goes wrong and no attempt of the other bundle is empty. |
| `Planner.BodyOnItsFixtures` | src/go.chromium.org/tast/core/internal/planner/run.go:714-739 | In the history of any run a test function is called only right after the start of its test, on a clean stack, when exactly the fixtures from the start fixture down to its own are set up, or none for a test that has none, and each of these has been set up or reset, without error, and the parent stack has reported green, since the last test of this or another bundle. |
| `Planner.ErrorsOfItsFixtures` | src/go.chromium.org/tast/core/internal/planner/run.go:714-739 | A test gets the errors of a fixture only right after its start, on a clean stack, when the SetUp of the first fixture on its path that is not set up is the last fixture call and failed, or the parent stack is red. |
| `Planner.AllCalled` | src/go.chromium.org/tast/core/internal/planner/run.go:176-182 | In a complete run in which no SetUp fails and the parent stack is never red, the function of every test of this bundle is called exactly once, except for tests with unmet dependencies and orphans, whose functions are not called. |
| `ExtData.NewLink` | src/go.chromium.org/tast/core/internal/extdata/extdata.go:77-110 | A link is accepted iff it says where the file is, and how to verify it, in exactly the way of its type; its URL is then the one that says so. |
| `ExtData.Manager.Purgeable` | src/go.chromium.org/tast/core/internal/extdata/extdata.go:170-181 | Exactly the known files that exist and that no prepared, unreleased use needs. |
| `ExtData.Manager.Release` | src/go.chromium.org/tast/core/internal/extdata/extdata.go:232-236 | Over any nesting of prepare and release, the use count of a path is the number of its live uses. |
| `ExtData.Manager.ShouldDownload` | src/go.chromium.org/tast/core/internal/extdata/extdata.go:451-470 | The two ways of deciding, by the recorded URL for artifacts and by size and hash for other files, with a fault possible at each read, keep only fresh files, and keep every fresh file unless a read fails. |
| `ExtData.Verify` | src/go.chromium.org/tast/core/internal/extdata/extdata.go:473-500 | Accepts only content with the size and hash of the link, and all such content unless a read fails. |
| `ExtData.FreshIsServed` | src/go.chromium.org/tast/core/internal/extdata/extdata.go:451-500 | What keeping a fresh file means: downloading a static link again would give the very same file, unless its hash collides. |
| `ExtData.Manager.ScanFile` | src/go.chromium.org/tast/core/internal/extdata/extdata.go:204-284 | After one round the data file is fresh, waits under its URL with its own link, or has an error record; on a faultless disk exactly which of them; a file that gets an error record adds nothing to the jobs. |
| `ExtData.Manager.PrepareDownloads` | src/go.chromium.org/tast/core/internal/extdata/extdata.go:194-303 | Every data file with a loadable link has an error record, or is fresh, or is gone and waits in a job with its link; of two files with conflicting links one has an error record; job URLs are distinct and sorted, destinations non-empty and without duplicates. On a faultless disk also conversely: fresh files are kept and not downloaded, stale ones removed, errors recorded only for conflicts and links that do not load. If all files are up to date, there is no job and no file changes. |
| `ExtData.NothingToDownload` | src/go.chromium.org/tast/core/internal/extdata/extdata.go:194-319 | On a faultless disk, files that are all up to date, as after a download that worked, are not downloaded again. |
| `ExtData.OneJob` | src/go.chromium.org/tast/core/internal/extdata/extdata.go:286-293 | A destination waits in one job only. |
| `ExtData.ExactSince` | src/go.chromium.org/tast/core/internal/extdata/extdata.go:204-284 | Scanning a file again, because several entities use it, changes nothing about its outcome. |
| `ExtData.RunDownload` | src/go.chromium.org/tast/core/internal/extdata/extdata.go:402-448 | Succeeds only with verified content at every destination; a failure leaves other files alone; on a faultless disk it succeeds iff the server holds what the link asks for. |
| `ExtData.RunDownloads` | src/go.chromium.org/tast/core/internal/extdata/extdata.go:350-399 | In whatever order workers take the jobs and their results are handled: afterwards every destination of every job has an error record or verified content, and files that needed nothing are still right; no error is recorded if nothing goes wrong. On a faultless disk every destination of a job that is served is fresh afterwards, with its URL recorded if it is an artifact. A record is written only for an artifact, and names the URL its file came from. Files of no job are untouched. |
| `ExtData.Downloader.Download` | src/go.chromium.org/tast/core/internal/planner/downloader.go:76-85 | From any state of the disk, afterwards every data file is usable or has an error record, and those whose links were loaded are in use; if nothing goes wrong, only files whose link does not load or conflicts have an error record, and all others are up to date; doing it again then changes no file. |
| `ExtData.Downloader.BeforeEntity` | src/go.chromium.org/tast/core/internal/planner/downloader.go:69-74 | In lazy mode, when an entity starts, every data file of it is usable or has an error record, and every one whose link was loaded, also with an error record, is held until it ends. |
| `ExtData.Downloader.Purgeable` | src/go.chromium.org/tast/core/internal/planner/run.go:728-735 | The purgeable list is exactly the files on disk that no unreleased use needs; it contains no external data file of an entity that has started and not finished. |
| `RemoteLog.RunKeepsInv` | src/go.chromium.org/tast/core/internal/rpc/logging_server.go:34-116 | One invariant for server, relay, stream, client and calls holds in every state of every interleaving. |
| `RemoteLog.RelayKeepsOrder` | src/go.chromium.org/tast/core/internal/rpc/logging_server.go:131-162 | What the relay took is what it handed on followed by its buffer. |
| `RemoteLog.LogNeverBlocksForGood` | src/go.chromium.org/tast/core/internal/rpc/logging_server.go:104-116 | While a Log call holds the mutex, the relay is ready to receive, at the latest after one step of its own. |
| `RemoteLog.ReadLogsSendsAll` | src/go.chromium.org/tast/core/internal/rpc/logging_server.go:34-101 | If no send fails, ReadLogs returns only after it has sent exactly the entries of its subscription, consecutively numbered and in order. |
| `RemoteLog.ReadLogsReturns` | src/go.chromium.org/tast/core/internal/rpc/logging_server.go:46-101 | A send that fails makes ReadLogs leave its loop; and from every state it can be stopped and gets to its return by finitely many steps of the relay and its own. |
| `RemoteLog.BarrierHolds` | src/go.chromium.org/tast/core/internal/rpc/client.go:356-373 | When the wait of a call has succeeded, every entry up to its trailer, and every entry its handler emitted, has been passed to the client logger. |
| `RemoteLog.NoLostWakeup` | src/go.chromium.org/tast/core/internal/rpc/logging_client.go:64-87 | A blocked waiter that was not notified waits for a number the client has not seen; no channel is closed twice. |
| `RemoteLog.NeverStuck` | src/go.chromium.org/tast/core/internal/rpc/logging_client.go:99-135 | While the stream works and the client listens, an entry on its way always has an internal step to take. |
| `RemoteLog.InternalStepsEnd` | src/go.chromium.org/tast/core/internal/rpc/logging_server.go:131-162 | Every internal step leaves less to do. |
| `RemoteLog.AllAcknowledged` | src/go.chromium.org/tast/core/internal/rpc/logging_client.go:99-135 | However internal steps are scheduled, they end after finitely many, and then every entry has been acknowledged. |
| `RemoteLog.LogReachesClient` | src/go.chromium.org/tast/core/internal/rpc/logging_server.go:104-116 | An entry that is logged while there is a subscription gets the next number and is the last one in the log of the client when the internal steps have come to their end. |
| `RemoteLog.CallGetsThrough` | src/go.chromium.org/tast/core/internal/rpc/client.go:356-373 | Then every waiting call, blocked or not, can be woken and check, and its wait succeeds. |
| `RemoteLog.CallCanEnd` | src/go.chromium.org/tast/core/internal/rpc/logging_client.go:64-87 | A call that waits can always come to its end by giving up; it is successful only if its trailer was seen. |
| `RemoteLog.QuietWait` | src/go.chromium.org/tast/core/internal/rpc/logging_client.go:64-87 | Once all entries are acknowledged, a wait succeeds iff the subscription has had an entry or the trailer is 0; in particular always if the server had logged nothing before the subscription. |
| `RemoteLog.LaterSubscriptionBlocks` | src/go.chromium.org/tast/core/internal/rpc/server.go:277-304 | A run in which that fails: after a later subscription a call that logs nothing blocks. |
| `ResumingReader.Reader.Read` | src/go.chromium.org/tast/core/internal/devserver/real.go:469-515 | Over any sequence of reads and breaks the bytes returned are exactly the first pos bytes of the file; EOF only at the end; errors are sticky; at most two underlying reads per call; a broken stream is an error only if the reopened one breaks too, without a byte, or if it broke after the last byte. A stream that breaks delivers nothing more; after a break there is an error, or the reader goes on with a new stream opened at the place where the broken one stopped, and only streams that broke are replaced. |
| `ResumingReader.Reader.Close` | src/go.chromium.org/tast/core/internal/devserver/real.go:517-519 | Every body that was ever opened is closed. |
| `ResumingReader.Copy` | src/go.chromium.org/tast/core/internal/devserver/real.go:458-515 | Reading until an error, in pieces: EOF means the file, any other error a prefix, and no error that all pieces were read. |
| `DoAsync.BodyOnceCleanIffError` | src/go.chromium.org/tast/core/ssh/async.go:19-54 | In every interleaving body runs once and clean, if there is one, runs once after it iff the returned error is non-nil. |
| `DoAsync.ReturnValue` | src/go.chromium.org/tast/core/ssh/async.go:19-54 | Returned is the error of a cancelled ctx or the result of body; if ctx is not cancelled, the goroutine has finished. |
| `DoAsync.DecidedForGood` | src/go.chromium.org/tast/core/ssh/async.go:32-54 | Once the caller has decided what to return, nothing changes it. |
| `DoAsync.NeverStuck` | src/go.chromium.org/tast/core/ssh/async.go:19-54 | Once body has returned neither goroutine blocks forever on the channels. |
| `DoAsync.CancelledNeverWaits` | src/go.chromium.org/tast/core/ssh/async.go:19-54 | Once ctx is cancelled the caller always has a step of its own to take, even if body never returns, and only finitely many. |
| `DoAsync.CancelledReturns` | src/go.chromium.org/tast/core/ssh/async.go:24-54 | So it returns without any step of the goroutine: with the error of ctx, or with what it had already decided. |
| `DoAsync.StepsEnd` | src/go.chromium.org/tast/core/ssh/async.go:19-54 | The steps other than cancellation are finitely many. |
| `DoAsync.AfterPollEitherWay` | src/go.chromium.org/tast/core/ssh/async.go:10-18 | The promise about cancellation before body finishes fails in every state in which ctx is cancelled after the first check: the result of body may still be returned. |
| `DoAsync.CancelledBeforePoll` | src/go.chromium.org/tast/core/ssh/async.go:10-18 | The promise holds if ctx is cancelled before the first check: then the error of ctx is returned, whatever body does. |
| `DoAsync.UncancelledGivesBody` | src/go.chromium.org/tast/core/ssh/async.go:10-18 | The result of body is returned if ctx is not cancelled before the caller has taken it, whatever happens afterwards. |
| `DoAsync.FinishedBodyEitherWay` | src/go.chromium.org/tast/core/ssh/async.go:10-18 | That it is returned if body only finishes before the cancellation fails in every state in which body has finished, whether or not its result is sent yet, and the caller has not taken it: cancelled then, it can return the error of ctx, and otherwise the result of body. |
| `SshCmd.Cmd.Start` | src/go.chromium.org/tast/core/ssh/exec_ctx.go:263-289 | The state only moves forward, every session opened is handed to at most one closer, and after a failed start to exactly one, with the command done and its pipes closed; a successful start leaves the pipes as they are. It succeeds iff the command is new and connected, the context is not done, and every step succeeds. |
| `SshCmd.Cmd.Wait` | src/go.chromium.org/tast/core/ssh/exec_ctx.go:296-311 | Works once, after a successful start: whatever fails, the session is handed to its one closer and the pipes are closed. An Abort that is noticed, or a context that is done, fails it. |
| `SshCmd.Cmd.OpenWhileStarted` | src/go.chromium.org/tast/core/ssh/exec_ctx.go:215-261 | Whatever the context does, a pipe of a started command is closed iff the command was aborted after the pipe was made, or its copier has come to its end. |
| `SshCmd.DeadlineLeavesPipeOpen` | src/go.chromium.org/tast/core/ssh/exec_ctx.go:215-220 | An input at which the deadline is reached and the pipe stays open. |
| `SshCmd.Cmd.ClosePipes` | src/go.chromium.org/tast/core/ssh/exec_ctx.go:514-523 | Closes exactly the pipes that exist when it is first called, and nothing later. |
| `SshCmd.Cmd.Run` | src/go.chromium.org/tast/core/ssh/exec_ctx.go:142-152 | For every outcome on the network: a new, connected command ends done, each session has had exactly one closer, and its pipes have been closed. |
| `SshCmd.Cmd.Settle` | src/go.chromium.org/tast/core/ssh/exec_ctx.go:403-451 | When the copiers of a command that is done have come to their end, a pipe is open iff it was made after the pipes were closed and no copier was started for it. |
| `SshCmd.RunWithPipes` | src/go.chromium.org/tast/core/ssh/exec_ctx.go:215-261 | For a command that is run to its end, that a pipe is closed automatically holds iff it was not made after an Abort or the session could be set up. |
| `SshCmd.LatePipeStaysOpen` | src/go.chromium.org/tast/core/ssh/exec_ctx.go:215-261 | An input at which a pipe stays open for good. |
| `ShellQuote.RoundTrip` | src/go.chromium.org/tast/core/shutil/shutil.go:14-42 | A reader of shell words gives back exactly the arguments, for every list of strings. |
| `ShellQuote.ReadsEscaped` | src/go.chromium.org/tast/core/shutil/shutil.go:27-33 | An escaped argument, bare or quoted, reads as that argument in front of any rest of the line. |
| `ShellQuote.EscapeSliceInjective` | src/go.chromium.org/tast/core/shutil/shutil.go:36-42 | Different argument lists never print the same. |

## Left out

- FixtureWalk.RunFixtTree: that there is no error is stated for bundles none of whose attempts is empty; an attempt that a failed fixture empties is an error only as Retry.RunExternalTests says.
- FixtureWalk.RunExternalTests: the other bundle appears through the requests it may send to the stack server and the results it reports, not through its own walk; in the history its results come before its requests, whose marks of dirt show when its tests use the fixtures.
- Planner.RunTests: external tests are counted by the results that are kept; with retries their functions run more often, as Retry.RunTestsWithRetry says.
- Planner.RunPrePlan: Prepare and Close of preconditions are part of the test function; their errors do not change the plan.
- ExtData.RunDownloads: the steps of one download do not interleave with those of another; their destinations are disjoint.
- ExtData.Downloader.BeforeEntity: batch mode, which downloads everything before the run, holds its files outside the stack of entities.
- ExtData.NewLink: data files whose names end like link, record or error files could collide with those of other files; paths are structured here.
- RemoteLog.BarrierHolds: one subscription; sequence numbers do not wrap around at 64 bits. The stack trace that the server logs for a failed call, after it has read the trailer, is an entry from outside handlers, which the barrier does not cover.
- ResumingReader.Reader.Read: offsets do not wrap around at 63 bits; a server that ignores the range of a request is excluded.
- ShellQuote.RoundTrip: a first word of the form name=value is an assignment to a shell; the reader takes it as a word, and likewise a first word such as `if`, which a shell reserves.
- SshCmd.Cmd.Start: sequential use; a body that outlives a cancelled doAsync is taken to end before the next call; what the copiers copy, stdin and the output buffers are not modelled.
- FixtureStacks.FixtureStack.Push: fixture values, PreTest and PostTest hooks and output directories.
- Sorting: strings compare by code points, which for UTF-8 is the byte order that Go uses.
- Timeouts, grace periods, goroutine dumps, timing logs and the wording of errors.
- gRPC wiring, bundle discovery, SSH dialing, devserver staging, the command line, reporting and result files: plumbing over other libraries.
- Dependency checks and device probing: their result is an input.
- Attribute expressions, loggers and message framing: they would only add easy members.

# PSL unit-test adapter: discovery, tree search, run orchestration

This project models the test-explorer adapter for PSL unit tests. It covers
three parts:

- **Discovery.** Procedure files named `ZTest*.PROC` (except the RPC
  dispatcher `ZTestRPC.PROC`) are suites. Their methods whose names start
  with `test` are tests. A test's id is `method^suite`. A suite's id is the
  file name without its extension. Suites without tests are dropped.
- **Running.** Each selected id is resolved by a depth-first, pre-order,
  first-match search. Suites are walked depth first. Each test is run on a
  remote host. Its result becomes a test event with a message and an
  optional line decoration.
- **The adapter.** `load`, `run` and `dispose` change the adapter's fields
  and fire events on its emitters.

Modules, one per file:

- `Js` (`js.dfy`): the JavaScript library operations the code relies on
  (`startsWith`, `endsWith`, `lastIndexOf`, `path.basename`, `filter`, string
  conversion of `undefined`), with their characterisations.
- `TestTree` (`tree.dfy`): the suite/test tree and its pre-order.
- `Events` (`events.dfy`): the events, and `Emitter`, a class that stands
  for a VS Code event emitter. It keeps an append-only log of the events
  fired on it and counts its disposals.
- `Finder` (`finder.dfy`): discovery, as pure functions over a `Workspace`.
  A `Workspace` holds the root path, the result of listing the procedure
  directory and the parser's result for each path.
- `Runner` (`runner.dfy`): `findNode`, `getEnvironment` and
  `createTestResults` as functions. The runner is a class whose methods fire
  events on the shared emitter. Each method is proved against a function
  that gives the events it appends and the error that stops it (`Trace`).
- `Adapter` (`adapter.dfy`): `loadTests` as a function and the
  adapter as a class with `isLoading`, `runningTestProcess`, `loadedTestSuite`
  and `disposables`.

Collaborators the code calls but that are not part of this model are inputs:

- the directory listing and the PSL parser are fields of `Workspace`;
- the environment resolver and the remote execution of one test are fields
  of `Runner.Host`. Remote execution covers connecting, `runCustom`, closing
  and `JSON.parse`. Each may fail with an error message.

Exceptions are modelled as `Result.Err` carrying the exception's message.

The model follows the code as written. In particular:

- `run` never fires a `finished` event. The only code that fired one is
  commented out.
- The `runningTestProcess` guard of `run` can never hold, because nothing
  assigns that field. Overlapping runs are therefore not dropped.
- A failure of the host or of `JSON.parse` during a run is not turned into
  an `errored` event. It aborts every node after it, and `run` logs it and
  swallows it.
- Running with no tree loaded fails on the first selected id: `findNode`
  reads `id` of `undefined`.

## Model

| member | source | states |
|---|---|---|
| Js.LastIndexOf | src/adapter/psl-unit-test-finder.ts:46 | The result is -1 or an index holding the character, and no later index holds it. |
| Js.Basename | src/adapter/psl-unit-test-finder.ts:45 | The base name holds no '/'. It is a suffix of the path, and when shorter it follows a '/'. |
| Js.BasenameOfJoin | src/adapter/psl-unit-test-finder.ts:59-60 | The base name of a directory path joined with a '/'-free name is that name. |
| Js.StartsWithIff | src/adapter/psl-unit-test-finder.ts:68 | `startsWith(p)` holds exactly when the string is `p` followed by something. |
| Js.EndsWithIff | src/adapter/psl-unit-test-finder.ts:78 | `endsWith(p)` holds exactly when the string is something followed by `p`. |
| Js.Filter | src/adapter/psl-unit-test-finder.ts:26 | Filtering keeps exactly the elements that satisfy the predicate and is never longer. |
| Js.FilterAppend | src/adapter/psl-unit-test-finder.ts:58 | Filtering preserves order: filtering a concatenation concatenates the filtered parts. |
| TestTree.PreOrder | src/adapter/psl-unit-test-runner.ts:46-57 | The pre-order of a tree is non-empty and starts at its root. |
| Events.Emitter.constructor | src/adapter/adapter.ts:13-15 | A new emitter has an empty log and no disposals. |
| Events.Emitter.Fire | src/adapter/psl-unit-test-runner.ts:59-61 | Firing appends exactly the event to the log and nothing else changes. |
| Events.Emitter.Dispose | src/adapter/adapter.ts:104-106 | Disposing counts one disposal and leaves the log unchanged. |
| Finder.UnitTestDirectory | src/adapter/psl-unit-test-finder.ts:56 | The procedure directory path ends in '/'. |
| Finder.GetFileNameWithoutExtension | src/adapter/psl-unit-test-finder.ts:44-53 | No contract of its own; characterised by `Finder.GetFileNameWithoutExtensionSpec` and `Finder.SuiteIdOfTestProcedure`. |
| Finder.GetFileNameWithoutExtensionSpec | src/adapter/psl-unit-test-finder.ts:44-53 | The result is a prefix of the base name. With a '.' after the first character it stops just before the last '.'; otherwise it is the whole base name. |
| Finder.SuiteIdExample | src/adapter/psl-unit-test-finder.ts:44-53 | `ZTestDemo.PROC` gives the suite id `ZTestDemo`. |
| Finder.IsTestMethod | src/adapter/psl-unit-test-finder.ts:67-69 | No contract of its own; characterised by `Finder.IsTestMethodIff`. |
| Finder.IsTestMethodIff | src/adapter/psl-unit-test-finder.ts:67-69 | A method is a test exactly when its name is `test` followed by something (case-sensitive). |
| Finder.IsTestProcedure | src/adapter/psl-unit-test-finder.ts:71-79 | No contract of its own; characterised by `Finder.IsTestProcedureIff` and `Finder.SuiteIdOfTestProcedure`. |
| Finder.IsTestProcedureIff | src/adapter/psl-unit-test-finder.ts:71-79 | A file is a suite file exactly when it is not `ZTestRPC.PROC`, starts with `ZTest` and ends with `.PROC`. |
| Finder.SuiteIdOfTestProcedure | src/adapter/psl-unit-test-finder.ts:71-79 | A suite file name is at least 10 characters long and is its suite id followed by `.PROC`. |
| Finder.SuiteIdOfJoin | src/adapter/psl-unit-test-finder.ts:59-61 | The suite id of a joined path depends only on the file name. |
| Finder.CreateTestInfo | src/adapter/psl-unit-test-finder.ts:33-42 | The node is a test whose caption is the method name, whose id is the method name, '^' and the suite id, and whose file and line are the method's file and line. |
| Finder.TestIdInjective | src/adapter/psl-unit-test-finder.ts:33-42 | Within one suite, two test ids are equal exactly when the method names are. |
| Finder.TestIdDeterminesMethodAndSuite | src/adapter/psl-unit-test-finder.ts:33-42 | For '^'-free method names, a test id determines the method name and the suite id. |
| Finder.TestMethods | src/adapter/psl-unit-test-finder.ts:25-26 | No contract of its own; `Js.Filter`, `Finder.TestMethodsExample` and `Finder.CreateTestSuiteOfOne` characterise it. |
| Finder.TestInfos | src/adapter/psl-unit-test-finder.ts:27 | Each method gives one test node, in order. |
| Finder.CreateTestSuite | src/adapter/psl-unit-test-finder.ts:15-31 | The suite's id and caption are the stripped file name. Each child is a test from this file whose caption starts with `test`. Its id is the caption, '^' and the suite id, and it comes from a parsed method with the same name and line. |
| Finder.CreateTestSuiteComplete | src/adapter/psl-unit-test-finder.ts:25-29 | Every test method of the file has its test node among the children. |
| Finder.CreateTestSuiteAppend | src/adapter/psl-unit-test-finder.ts:25-29 | The children follow parser order: more methods append their tests after the existing ones. |
| Finder.CreateTestSuiteOfOne | src/adapter/psl-unit-test-finder.ts:25-27 | One method gives its test node when it is a test method, and nothing otherwise. |
| Finder.TestMethodsExample | src/adapter/psl-unit-test-finder.ts:25-26 | Of `testA`, `helperB`, `testC`, the tests are `testA` and `testC`, in that order. |
| Finder.CreateTestSuiteExample | src/adapter/psl-unit-test-finder.ts:15-42 | In any directory, `ZTestDemo.PROC` with methods `testA`, `helperB`, `testC` gives the suite `ZTestDemo` holding the tests `testA^ZTestDemo` and `testC^ZTestDemo`, in that order, with their lines. |
| Finder.TestProcedures | src/adapter/psl-unit-test-finder.ts:58-59 | No contract of its own; the listed names accepted by `Finder.IsTestProcedure`, in order (`Js.Filter`, `Js.FilterAppend`). |
| Finder.ParseAll | src/adapter/psl-unit-test-finder.ts:60-62 | Parsing every path gives one method list per path. |
| Finder.ParseAllSpec | src/adapter/psl-unit-test-finder.ts:60-62 | Parsing all paths succeeds exactly when each parse succeeds, and then gives each path's methods at its position. |
| Finder.ParseAllAppend | src/adapter/psl-unit-test-finder.ts:62 | A successful parse of `p + q` is the parse of `p` followed by that of `q`. |
| Finder.BuildSuites | src/adapter/psl-unit-test-finder.ts:60-62 | Building the suites succeeds exactly when every file parses. |
| Finder.BuildSuitesValue | src/adapter/psl-unit-test-finder.ts:60-62 | The suite at each position is built from the path at that position and its parsed methods. |
| Finder.BuildSuitesAppend | src/adapter/psl-unit-test-finder.ts:62 | `Promise.all` keeps order: the suites of `p + q` are those of `p` followed by those of `q`. |
| Finder.JoinAll | src/adapter/psl-unit-test-finder.ts:59 | Each name is joined to the directory, in order. |
| Finder.GetUnitTestSuites | src/adapter/psl-unit-test-finder.ts:55-65 | No contract of its own; characterised by `Finder.GetUnitTestSuitesOk`, `Finder.GetUnitTestSuitesShape`, `Finder.DiscoveryKeepsListingOrder` and `Finder.DiscoveryOfOneFile`. |
| Finder.GetUnitTestSuitesOk | src/adapter/psl-unit-test-finder.ts:55-64 | Discovery succeeds exactly when the directory can be listed and every suite file in it parses. |
| Finder.GetUnitTestSuitesShape | src/adapter/psl-unit-test-finder.ts:57-64 | Every discovered suite has at least one child and only tests. It comes from a listed suite file whose stripped name is its id. |
| Finder.DiscoveryKeepsListingOrder | src/adapter/psl-unit-test-finder.ts:57-64 | The suites of listing `a + b` are those of `a` followed by those of `b`. |
| Finder.DiscoveryOfOneFile | src/adapter/psl-unit-test-finder.ts:55-64 | A one-file listing gives that file's suite when it is a suite file with a test method, and no suite otherwise. |
| Runner.FindNode | src/adapter/psl-unit-test-runner.ts:46-57 | A node found has the requested id. |
| Runner.FindInChildren | src/adapter/psl-unit-test-runner.ts:50-55 | A node found among the children has the requested id. |
| Runner.FindNodeIsFirstInPreOrder | src/adapter/psl-unit-test-runner.ts:46-57 | `findNode` returns exactly what a linear search of the tree's pre-order returns. |
| Runner.FindInChildrenIsFirstInPreOrder | src/adapter/psl-unit-test-runner.ts:51-54 | The search over the children returns the first match in the pre-order of the children taken left to right. |
| Runner.FindNodeSpec | src/adapter/psl-unit-test-runner.ts:46-57 | A node is found exactly when some node of the tree has the id. It is then a node of the tree, and no node before it in pre-order has the id. |
| Runner.GetEnvironment | src/adapter/psl-unit-test-runner.ts:129-141 | An environment is returned exactly when the resolver succeeds with a non-empty list, and it is the first one. |
| Js.ToJsString | src/adapter/psl-unit-test-runner.ts:152 | No contract of its own; a present string is itself and a missing one is `undefined`, as `CreateTestResults`'s message states. |
| Runner.Truthy | src/adapter/psl-unit-test-runner.ts:153 | No contract of its own; a line is truthy when present and non-zero, as `CreateTestResults`'s decoration clause states. |
| Runner.CreateTestResults | src/adapter/psl-unit-test-runner.ts:143-162 | The event is for the test and copies the state. A pass gives message `Passed` and no decorations. Any other state gives the source/message text, plus one decoration at the summed line exactly when both lines are non-zero and present. |
| Runner.PassedIffPassedMessage | src/adapter/psl-unit-test-runner.ts:150-160 | The message is `Passed` exactly when the state is `passed`. |
| Runner.DecorationExample | src/adapter/psl-unit-test-runner.ts:152-158 | A failure at offset 3 of a test declared at line 10 is decorated at line 13. |
| Runner.SingleTestTrace | src/adapter/psl-unit-test-runner.ts:109-127 | No contract of its own; characterised by `Runner.TestTraceShape`, and `Runner.PslUnitTestRunner.RunSingleUnitTest` is proved to fire its events. |
| Runner.NodeTrace | src/adapter/psl-unit-test-runner.ts:92-107 | No contract of its own; characterised by `Runner.NodeTraceFollowsPreOrder` and `Runner.TestTraceShape`, and `Runner.PslUnitTestRunner.RunTestNode` is proved to fire its events. |
| Runner.ChildrenTrace | src/adapter/psl-unit-test-runner.ts:97-99 | No contract of its own; characterised by `Runner.ChildrenTraceAppend`, `Runner.ChildrenTraceSucceeds`, `Runner.ChildrenTraceAborts` and `Runner.ChildrenTraceFollowsPreOrder`. |
| Runner.IdTrace | src/adapter/psl-unit-test-runner.ts:85-88 | No contract of its own; characterised by `Runner.UnknownIdIsSkipped` and `Runner.NothingLoadedFails`. |
| Runner.SelectedTrace | src/adapter/psl-unit-test-runner.ts:83-90 | No contract of its own; characterised by `Runner.SelectedTraceAppend` and `Runner.SelectedTraceStateEventsOnly`, and `Runner.PslUnitTestRunner.RunSelectedTests` is proved to fire its events. |
| Runner.ChildrenTraceAppend | src/adapter/psl-unit-test-runner.ts:97-99 | Children run in listed order; later siblings run only when the earlier ones finished without error. |
| Runner.SelectedTraceAppend | src/adapter/psl-unit-test-runner.ts:84-89 | Selected ids run in the caller's order; later ids run only when earlier ones finished without error. |
| Runner.ChildrenTraceSucceeds | src/adapter/psl-unit-test-runner.ts:97-99 | The children's run succeeds exactly when each child's run does, and then holds each child's events in listed order. |
| Runner.ChildrenTraceAborts | src/adapter/psl-unit-test-runner.ts:97-99 | A failed children's run ends at the first failing child, after the complete events of the children before it; later children do not run. |
| Runner.TestTraceStarts | src/adapter/psl-unit-test-runner.ts:103-106 | A test's run announces only the test itself and fires two events when it succeeds. |
| Runner.NodeTraceFollowsPreOrder | src/adapter/psl-unit-test-runner.ts:92-107 | The nodes started are a prefix of the subtree's pre-order, and all of it on success. A successful run fires two events per node, and only state events are fired. |
| Runner.SuiteTraceFollowsPreOrder | src/adapter/psl-unit-test-runner.ts:93-102 | A suite's `running`/`completed` bracket keeps the pre-order and event-count facts of its children. |
| Runner.ChildrenTraceFollowsPreOrder | src/adapter/psl-unit-test-runner.ts:97-99 | Running the children starts nodes in the pre-order of the children. |
| Runner.SelectedTraceStateEventsOnly | src/adapter/psl-unit-test-runner.ts:83-107 | The runner fires only suite and test events, never a run `started` or `finished` event. |
| Runner.UnknownIdIsSkipped | src/adapter/psl-unit-test-runner.ts:85-88 | An id that resolves to nothing adds no events and does not stop later ids. |
| Runner.NothingLoadedFails | src/adapter/psl-unit-test-runner.ts:85 | With no tree loaded, a non-empty selection fails without firing anything. |
| Runner.TestTraceShape | src/adapter/psl-unit-test-runner.ts:103-127 | A test's run begins with `running`. Without an environment it ends with one `errored` event ("No environment selected") and does not fail. A host failure fires nothing more and fails. Otherwise one event built from the payload ends it. |
| Runner.PslUnitTestRunner.constructor | src/adapter/psl-unit-test-runner.ts:24-28 | The runner keeps the given tree and emitter. |
| Runner.PslUnitTestRunner.RunSelectedTests | src/adapter/psl-unit-test-runner.ts:83-90 | The emitter's log grows by exactly the selection's events. The error returned is the selection's error. |
| Runner.PslUnitTestRunner.RunTestNode | src/adapter/psl-unit-test-runner.ts:92-107 | The log grows by exactly the node's events: for a suite its bracket around the children's run, for a test `running` and its result. |
| Runner.PslUnitTestRunner.RunSingleUnitTest | src/adapter/psl-unit-test-runner.ts:109-127 | The log grows by the errored event, the result event, or nothing when the host fails. |
| Adapter.TotalTests | src/adapter/adapter.ts:121-123 | The total exists exactly when there is a suite; otherwise the empty-reduce error. |
| Adapter.LoadTests | src/adapter/adapter.ts:110-128 | No contract of its own; characterised by `Adapter.LoadTestsOk` and `Adapter.TotalTestsCountsLoadedTests`. |
| Adapter.LoadTestsOk | src/adapter/adapter.ts:110-128 | Loading succeeds exactly when a folder is open, discovery succeeds and finds a suite. The tree is then the root `root`/`PSL` over the suites in order. No suites gives the empty-reduce error. |
| Adapter.TestCountOfSuites | src/adapter/adapter.ts:121-123 | Over suites of tests, the summed children counts are the number of tests in the forest. |
| Adapter.TotalTestsCountsLoadedTests | src/adapter/adapter.ts:121-123 | The logged total is the number of tests in the loaded tree and at least the number of suites. |
| Adapter.LoadEvents | src/adapter/adapter.ts:41-48 | A load fires `started` and then one `finished`. It carries the tree exactly on success and the error message otherwise, never both. |
| Adapter.RunEvents | src/adapter/adapter.ts:57-61 | A run fires `started` with the selection, then only suite and test events, and never `finished`. |
| Adapter.PslTestAdapter.constructor | src/adapter/adapter.ts:25-34 | The three new emitters are registered as disposables in order. Nothing is loading, running or loaded. |
| Adapter.PslTestAdapter.Load | src/adapter/adapter.ts:36-51 | While loading, nothing happens. Otherwise the load events are fired, the tree is replaced only on success, and `isLoading` ends false. |
| Adapter.PslTestAdapter.Run | src/adapter/adapter.ts:53-61 | With no test process, `started` and the selection's events are fired and any error is swallowed. With a process, nothing is fired; `Valid()` shows that case never arises. |
| Adapter.PslTestAdapter.Cancel | src/adapter/adapter.ts:94-100 | Cancelling changes nothing. |
| Adapter.PslTestAdapter.Dispose | src/adapter/adapter.ts:102-108 | Each registered emitter is disposed once per registration and its log is kept. The list ends empty, so a second dispose disposes nothing. The invariant `Valid()` is kept, so no test process is ever recorded. |

## Left out

- Events.Emitter.Fire: an event fired after `dispose` is still appended to the log, although a disposed `vscode.EventEmitter` delivers it to no listener (for example a `load` after the adapter's `dispose`).
- VS Code plumbing is not modelled: extension registration (`activate.ts` is not part of this model), the event getters, `EventEmitter` delivery to listeners, and the `Log`/`utils.logger` output (including the logged total's wording).
- Opening and saving the test's document before it runs is left out. A failure there is not modelled.
- The connection layer (`getConnection`, `runCustom`, `close`) and `JSON.parse` are one host function `execute` that returns a payload or an error. `close` is skipped when `runCustom` throws, and that is not modelled.
- The payload is a record with a string `state` and optional `location`, `message` and integer `line`. Payloads without `state`, or with non-numeric or `NaN` lines, are not modelled. A JSON `null` location or message, which the message text shows as `null`, is not modelled either: `Option<string>` only tells a string from a missing field.
- Runner.CreateTestResults: an event without decorations is modelled as an empty decoration list; the source leaves the field absent.
- Runner.TestTraceShape: the `errored` event for a missing environment is modelled with an empty decoration list; the source leaves the field absent.
- The directory listing, the PSL parser and the environment resolver are inputs. An error is modelled by its message; a thrown non-`Error` value, whose `message` would be `undefined`, is not modelled.
- `path.join` is concatenation with a `/` separator and no normalisation. `path.basename` is the text after the last `/`.
- Async concurrency is not modelled. When several files fail to parse, `Promise.all` rejects with whichever fails first in time; the model reports the first failure in listing order. Interleaved `load` calls, which the `isLoading` guard protects against, are not modelled.
- `loadTests` reads the first open workspace folder. The model takes the open folders as a sequence, and no folder gives the error of reading `uri` of `undefined`. It does not distinguish "no folders" from "no workspace".
- The adapter's constructor arguments (`workspace`, `log`) are not modelled. `loadTests` ignores `workspace`, and `log` only logs. The runner's host is a parameter of `Run`.
- Commented-out code is not modelled: the forked child process, the process-message handler, `runTests`/`runNode` and the body of `cancel`. The `debug` hook is not implemented in the source.
- Adapter.PslTestAdapter.Load: `isLoading` is set to true while the load is in progress; this is not visible in a sequential model.

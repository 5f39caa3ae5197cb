/** The test adapter the test explorer talks to (src/adapter/adapter.ts):
    loading the tree of suites, running a selection of it, and disposing of
    its event emitters. */
module Adapter {
  import opened Js
  import opened TestTree
  import opened Events
  import opened Finder
  import opened Runner

  const RootId: string := "root"
  const RootCaption: string := "PSL"
  /** What `[].reduce((a, b) => a + b)` throws. */
  const EmptyReduceError: string := "Reduce of empty array with no initial value"
  /** What reading `uri` of the missing first workspace folder throws. */
  const NoWorkspaceError: string := "Cannot read properties of undefined (reading 'uri')"

  /** The handle of a forked test process; the adapter never forks one. */
  datatype ChildProcess = ChildProcess(pid: int)

  /** The children counts of the suites, added up. */
  function ChildCountSum(suites: seq<Node>): nat {
    if suites == [] then 0
    else
      var last := suites[|suites| - 1];
      ChildCountSum(suites[..|suites| - 1]) + (if last.Suite? then |last.children| else 0)
  }

  /** The total logged after discovery: the sum of the suites' children
      counts, by a `reduce` without an initial value, which throws on no
      suites. */
  function TotalTests(suites: seq<Node>): (r: Result<nat>)
    ensures r.Ok? <==> |suites| > 0
    ensures r.Err? ==> r.error == EmptyReduceError
  {
    if |suites| == 0 then Err(EmptyReduceError) else Ok(ChildCountSum(suites))
  }

  /** `loadTests`: discovery in the first workspace folder, wrapped into the
      root suite. Any exception becomes an error. */
  function LoadTests(workspaceFolders: seq<Workspace>): Result<Node> {
    if |workspaceFolders| == 0 then Err(NoWorkspaceError)
    else
      match GetUnitTestSuites(workspaceFolders[0])
      case Err(e) => Err(e)
      case Ok(suites) =>
        match TotalTests(suites)
        case Err(e) => Err(e)
        case Ok(_) => Ok(Suite(RootId, RootCaption, suites))
  }

  /** Loading succeeds exactly when a workspace folder is open, discovery
      in it succeeds and finds at least one suite with tests; the tree is then
      the root suite over the discovered suites. */
  lemma LoadTestsOk(workspaceFolders: seq<Workspace>)
    ensures LoadTests(workspaceFolders).Ok? <==>
      && |workspaceFolders| > 0
      && GetUnitTestSuites(workspaceFolders[0]).Ok?
      && |GetUnitTestSuites(workspaceFolders[0]).value| > 0
    ensures LoadTests(workspaceFolders).Ok? ==>
      LoadTests(workspaceFolders).value ==
        Suite(RootId, RootCaption, GetUnitTestSuites(workspaceFolders[0]).value)
    ensures |workspaceFolders| > 0 && GetUnitTestSuites(workspaceFolders[0]).Ok? &&
            |GetUnitTestSuites(workspaceFolders[0]).value| == 0 ==>
      LoadTests(workspaceFolders) == Err(EmptyReduceError)
  {
  }

  /** The tests under sibling leaves are the leaves themselves. */
  lemma {:induction false} TestCountOfLeaves(cs: seq<Node>)
    requires forall c :: c in cs ==> c.Test?
    ensures TestCount(PreOrderAll(cs)) == |cs|
    decreases |cs|
  {
    if cs != [] {
      var init := cs[..|cs| - 1];
      TestCountOfLeaves(init);
      TestCountAppend(PreOrderAll(init), PreOrder(cs[|cs| - 1]));
      assert cs[|cs| - 1] in cs;
      assert PreOrder(cs[|cs| - 1]) == [cs[|cs| - 1]];
      assert [cs[|cs| - 1]][..0] == [];
    }
  }

  /** Over suites whose children are all tests, the children counts add up
      to the tests of the forest. */
  lemma {:induction false} TestCountOfSuites(suites: seq<Node>)
    requires forall s :: s in suites ==> s.Suite? && forall c :: c in s.children ==> c.Test?
    ensures TestCount(PreOrderAll(suites)) == ChildCountSum(suites)
    decreases |suites|
  {
    if suites != [] {
      var init := suites[..|suites| - 1];
      var last := suites[|suites| - 1];
      TestCountOfSuites(init);
      TestCountAppend(PreOrderAll(init), PreOrder(last));
      TestCountOfLeaves(last.children);
      TestCountAppend([last], PreOrderAll(last.children));
      assert [last][..0] == [];
    }
  }

  /** The total that loading logs is the number of tests in the loaded tree,
      and at least one per suite. */
  lemma TotalTestsCountsLoadedTests(workspaceFolders: seq<Workspace>)
    requires LoadTests(workspaceFolders).Ok?
    ensures var suites := GetUnitTestSuites(workspaceFolders[0]).value;
      && TotalTests(suites).Ok?
      && TotalTests(suites).value == TestCount(PreOrder(LoadTests(workspaceFolders).value))
      && TotalTests(suites).value >= |suites|
  {
    var ws := workspaceFolders[0];
    var suites := GetUnitTestSuites(ws).value;
    var root := LoadTests(workspaceFolders).value;
    GetUnitTestSuitesShape(ws);
    TestCountOfSuites(suites);
    TestCountAppend([root], PreOrderAll(suites));
    assert [root][..0] == [];
    ChildCountsAtLeastOne(suites);
  }

  lemma {:induction false} ChildCountsAtLeastOne(suites: seq<Node>)
    requires forall s :: s in suites ==> s.Suite? && |s.children| > 0
    ensures ChildCountSum(suites) >= |suites|
    decreases |suites|
  {
    if suites != [] {
      ChildCountsAtLeastOne(suites[..|suites| - 1]);
    }
  }

  /** The events one load fires: `started`, then `finished` with either the
      tree or the error message. */
  function LoadEvents(loaded: Result<Node>): (r: seq<Event>)
    ensures |r| == 2 && r[0] == LoadStarted && r[1].LoadFinished?
    ensures r[1].loaded.Some? != r[1].errorMessage.Some?
    ensures r[1].loaded.Some? <==> loaded.Ok?
    ensures loaded.Ok? ==> r[1].loaded.value == loaded.value
    ensures loaded.Err? ==> r[1].errorMessage.value == loaded.error
  {
    match loaded
    case Ok(root) => [LoadStarted, LoadFinished(Some(root), None)]
    case Err(e) => [LoadStarted, LoadFinished(None, Some(e))]
  }

  /** The events one run fires: `started` with the selection, then only
      suite and test state events; never a `finished` event. */
  function RunEvents(host: Host, root: Option<Node>, tests: seq<string>): (r: seq<Event>)
    ensures |r| >= 1 && r[0] == RunStarted(tests)
    ensures forall i :: 1 <= i < |r| ==> r[i].SuiteEvent? || r[i].TestEvent?
    ensures RunFinished !in r
  {
    SelectedTraceStateEventsOnly(host, root, tests);
    [RunStarted(tests)] + SelectedTrace(host, root, tests).events
  }

  class PslTestAdapter {
    var disposables: seq<Emitter>
    const testsEmitter: Emitter
    const testStatesEmitter: Emitter
    const autorunEmitter: Emitter
    var isLoading: bool
    var runningTestProcess: Option<ChildProcess>
    var loadedTestSuite: Option<Node>

    /** The three emitters are distinct objects, and no test process is
        ever recorded: nothing assigns `runningTestProcess`, so the guard
        of `run` never holds. */
    ghost predicate Valid()
      reads this
    {
      && testsEmitter != testStatesEmitter
      && testsEmitter != autorunEmitter
      && testStatesEmitter != autorunEmitter
      && runningTestProcess.None?
    }

    constructor ()
      ensures Valid()
      ensures fresh(testsEmitter) && fresh(testStatesEmitter) && fresh(autorunEmitter)
      ensures testsEmitter.log == [] && testStatesEmitter.log == [] && autorunEmitter.log == []
      ensures disposables == [testsEmitter, testStatesEmitter, autorunEmitter]
      ensures !isLoading && runningTestProcess.None? && loadedTestSuite.None?
    {
      var tests := new Emitter();
      var states := new Emitter();
      var autorun := new Emitter();
      testsEmitter := tests;
      testStatesEmitter := states;
      autorunEmitter := autorun;
      isLoading := false;
      runningTestProcess := None;
      loadedTestSuite := None;
      disposables := [tests, states, autorun];
    }

    /** `load`: ignored while a load is in progress; otherwise fires
        `started` and `finished`, and keeps the new tree only on success. */
    method Load(workspaceFolders: seq<Workspace>)
      requires Valid()
      modifies this, testsEmitter
      ensures Valid()
      ensures old(isLoading) ==> testsEmitter.log == old(testsEmitter.log) &&
                                 loadedTestSuite == old(loadedTestSuite) && isLoading
      ensures !old(isLoading) ==>
        && testsEmitter.log == old(testsEmitter.log) + LoadEvents(LoadTests(workspaceFolders))
        && loadedTestSuite == (if LoadTests(workspaceFolders).Ok? then Some(LoadTests(workspaceFolders).value)
                               else old(loadedTestSuite))
        && !isLoading
      ensures testsEmitter.disposals == old(testsEmitter.disposals)
      ensures disposables == old(disposables) && runningTestProcess == old(runningTestProcess)
    {
      if isLoading {
        return;
      }
      isLoading := true;
      testsEmitter.Fire(LoadStarted);
      var loaded := LoadTests(workspaceFolders);
      match loaded {
        case Ok(root) =>
          loadedTestSuite := Some(root);
          testsEmitter.Fire(LoadFinished(loadedTestSuite, None));
        case Err(e) =>
          testsEmitter.Fire(LoadFinished(None, Some(e)));
      }
      isLoading := false;
    }

    /** `run`: ignored while a test process runs; otherwise fires `started`
        with the selection and runs it against the loaded tree. An error of
        the run is logged and swallowed. */
    method Run(tests: seq<string>, host: Host)
      requires Valid()
      modifies testStatesEmitter
      ensures old(runningTestProcess).Some? ==> testStatesEmitter.log == old(testStatesEmitter.log)
      ensures old(runningTestProcess).None? ==>
        testStatesEmitter.log == old(testStatesEmitter.log) + RunEvents(host, loadedTestSuite, tests)
      ensures testStatesEmitter.disposals == old(testStatesEmitter.disposals)
    {
      if runningTestProcess.Some? {
        return;
      }
      testStatesEmitter.Fire(RunStarted(tests));
      var testRunner := new PslUnitTestRunner(loadedTestSuite, testStatesEmitter, host);
      var _ := testRunner.RunSelectedTests(tests);
    }

    /** `cancel`: its body is commented out, so it does nothing. */
    method Cancel()
      ensures unchanged(this)
    {
    }

    /** `dispose`: disposes of every registered disposable, once per
        registration, then forgets them all. */
    method Dispose()
      requires Valid()
      modifies this, disposables
      ensures Valid()
      ensures disposables == []
      ensures forall e :: e in old(disposables) ==>
        e.disposals == old(e.disposals) + multiset(old(disposables))[e] && e.log == old(e.log)
      ensures isLoading == old(isLoading) && loadedTestSuite == old(loadedTestSuite)
      ensures runningTestProcess == old(runningTestProcess)
    {
      Cancel();
      var i := 0;
      while i < |disposables|
        invariant 0 <= i <= |disposables|
        invariant disposables == old(disposables)
        invariant isLoading == old(isLoading) && loadedTestSuite == old(loadedTestSuite)
        invariant runningTestProcess == old(runningTestProcess)
        invariant forall e :: e in disposables ==>
          e.disposals == old(e.disposals) + multiset(disposables[..i])[e] && e.log == old(e.log)
      {
        assert disposables[..i + 1] == disposables[..i] + [disposables[i]];
        disposables[i].Dispose();
        i := i + 1;
      }
      assert disposables[..i] == disposables;
      disposables := [];
    }
  }
}

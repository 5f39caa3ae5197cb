/** Running a selection of the loaded test tree
    (src/adapter/psl-unit-test-runner.ts): resolving each selected id,
    walking suites depth first, running each test on the host and turning
    its result into a test event. */
module Runner {
  import opened Js
  import opened TestTree
  import opened Events

  /** The remote procedure every test is dispatched through. */
  const UnitTestRpc: string := "^ZTestRPC"
  const NoEnvironmentMessage: string := "No environment selected"
  /** What `findNode(undefined, id)` throws when no suite has been loaded. */
  const UndefinedSuiteError: string := "Cannot read properties of undefined (reading 'id')"

  /** An environment the resolver offers for a file; opaque here. */
  datatype EnvironmentConfig = EnvironmentConfig(name: string)

  /** A remote result after `JSON.parse`: `{state, location?, message?,
      line?}`. */
  datatype Payload = Payload(state: string, location: Option<string>, message: Option<string>,
                             line: Option<int>)

  /** The collaborators the runner calls. `resolveEnvironments` is
      `utils.getEnvironment`, which may throw. `execute(env, fsPath, rpc,
      methodToRun)` stands for connecting to `env`, `runCustom(fsPath, rpc,
      methodToRun)`, closing and `JSON.parse` of the output; any of these may
      throw. */
  datatype Host = Host(
    resolveEnvironments: string -> Result<seq<EnvironmentConfig>>,
    execute: (EnvironmentConfig, string, string, string) -> Result<Payload>)

  /** Depth-first search for the node with the given id: the node itself,
      then its children from left to right, recursively. */
  function FindNode(searchNode: Node, id: string): (r: Option<Node>)
    ensures r.Some? ==> r.value.id == id
    decreases searchNode
  {
    if searchNode.id == id then Some(searchNode)
    else match searchNode
      case Test(_, _, _, _) => None
      case Suite(_, _, children) => FindInChildren(children, id)
  }

  /** The `for ... of` loop of `findNode` over the children: the first child
      subtree holding the id wins. */
  function FindInChildren(children: seq<Node>, id: string): (r: Option<Node>)
    ensures r.Some? ==> r.value.id == id
    decreases children
  {
    if children == [] then None
    else match FindNode(children[0], id)
      case Some(found) => Some(found)
      case None => FindInChildren(children[1..], id)
  }

  /** A plain linear search: the first node of `s` with the id. */
  function FirstWithId(s: seq<Node>, id: string): (r: Option<Node>)
    ensures r.Some? <==> exists k :: 0 <= k < |s| && s[k].id == id
    ensures r.Some? ==> exists k :: 0 <= k < |s| && s[k] == r.value && r.value.id == id &&
                                    forall j :: 0 <= j < k ==> s[j].id != id
  {
    if s == [] then None
    else if s[0].id == id then Some(s[0])
    else
      var r := FirstWithId(s[1..], id);
      assert forall k :: 0 < k < |s| ==> s[k] == s[1..][k - 1];
      r
  }

  lemma {:induction false} FirstWithIdAppend(a: seq<Node>, b: seq<Node>, id: string)
    ensures FirstWithId(a + b, id) ==
      if FirstWithId(a, id).Some? then FirstWithId(a, id) else FirstWithId(b, id)
  {
    if a != [] {
      assert (a + b)[1..] == a[1..] + b;
      FirstWithIdAppend(a[1..], b, id);
    } else {
      assert a + b == b;
    }
  }

  /** `findNode` finds exactly what a linear search of the tree's pre-order
      finds: the first node in pre-order with the id. */
  lemma {:induction false} FindNodeIsFirstInPreOrder(n: Node, id: string)
    ensures FindNode(n, id) == FirstWithId(PreOrder(n), id)
    decreases n
  {
    match n
    case Test(_, _, _, _) =>
    case Suite(_, _, children) =>
      if n.id != id {
        assert ([n] + PreOrderAll(children))[1..] == PreOrderAll(children);
        FindInChildrenIsFirstInPreOrder(children, id);
      }
  }

  lemma {:induction false} FindInChildrenIsFirstInPreOrder(children: seq<Node>, id: string)
    ensures FindInChildren(children, id) == FirstWithId(PreOrderAll(children), id)
    decreases children
  {
    if children != [] {
      var rest := children[1..];
      assert children == [children[0]] + rest;
      PreOrderAllCons(children[0], rest);
      FirstWithIdAppend(PreOrder(children[0]), PreOrderAll(rest), id);
      FindNodeIsFirstInPreOrder(children[0], id);
      FindInChildrenIsFirstInPreOrder(rest, id);
    }
  }

  /** `findNode(n, id)` is defined exactly when some node of the tree has the
      id; it then returns a node of the tree with that id, and no node before
      it in pre-order has the id. */
  lemma FindNodeSpec(n: Node, id: string)
    ensures var nodes := PreOrder(n);
      && (FindNode(n, id).Some? <==> exists k :: 0 <= k < |nodes| && nodes[k].id == id)
      && (FindNode(n, id).Some? ==>
            exists k :: 0 <= k < |nodes| && nodes[k] == FindNode(n, id).value &&
                        forall j :: 0 <= j < k ==> nodes[j].id != id)
  {
    FindNodeIsFirstInPreOrder(n, id);
  }

  /** The first environment the resolver offers for the file, or nothing
      when the resolver throws or offers none. */
  function GetEnvironment(host: Host, fsPath: string): (r: Option<EnvironmentConfig>)
    ensures var envs := host.resolveEnvironments(fsPath);
      && (r.Some? <==> envs.Ok? && |envs.value| > 0)
      && (r.Some? ==> r.value == envs.value[0])
  {
    match host.resolveEnvironments(fsPath)
    case Err(_) => None
    case Ok(envs) => if |envs| == 0 then None else Some(envs[0])
  }

  /** JavaScript truthiness of a number that may be absent. */
  predicate Truthy(v: Option<int>) {
    v.Some? && v.value != 0
  }

  /** The terminal event for a test from its parsed remote result. */
  function CreateTestResults(node: Node, obj: Payload): (e: Event)
    requires node.Test?
    ensures e.TestEvent? && e.test == node.id && e.state == obj.state
    ensures obj.state == "passed" ==> e.message == Some("Passed") && e.decorations == []
    ensures obj.state != "passed" ==>
      && e.message == Some("Source:  " + ToJsString(obj.location) + "\n" +
                           "Message: " + ToJsString(obj.message))
      && (Truthy(Some(node.line)) && Truthy(obj.line) ==>
            e.decorations == [Decoration(node.line + obj.line.value, obj.message)])
      && (!(Truthy(Some(node.line)) && Truthy(obj.line)) ==> e.decorations == [])
  {
    var failed := obj.state != "passed";
    var message :=
      if failed then "Source:  " + ToJsString(obj.location) + "\n" + "Message: " + ToJsString(obj.message)
      else "Passed";
    var decorations :=
      if failed && Truthy(Some(node.line)) && Truthy(obj.line) then
        [Decoration(node.line + obj.line.value, obj.message)]
      else [];
    TestEvent(node.id, obj.state, Some(message), decorations)
  }

  /** A consumer can tell a pass from its message alone: the message is
      "Passed" exactly when the remote state is "passed". */
  lemma PassedIffPassedMessage(node: Node, obj: Payload)
    requires node.Test?
    ensures CreateTestResults(node, obj).message == Some("Passed") <==> obj.state == "passed"
  {
    var e := CreateTestResults(node, obj);
    if obj.state != "passed" {
      assert e.message.value[0] == 'S';
    }
  }

  /** A failure reported at offset 3 of a test declared at line 10 is
      decorated at line 13 with the remote message. */
  lemma DecorationExample(node: Node)
    requires node.Test? && node.line == 10
    ensures CreateTestResults(node, Payload("failed", Some("L1"), Some("M1"), Some(3))) ==
      TestEvent(node.id, "failed", Some("Source:  L1\nMessage: M1"), [Decoration(13, Some("M1"))])
  {
    assert "Source:  " + ToJsString(Some("L1")) + "\n" + "Message: " + ToJsString(Some("M1")) ==
           "Source:  L1\nMessage: M1";
  }

  /** The events a run appends, and the error that aborted it, if any. */
  datatype Trace = Trace(events: seq<Event>, failure: Option<string>)

  /** `runSingleUnitTest`: the events after a test's `running` event. */
  function SingleTestTrace(host: Host, node: Node): Trace
    requires node.Test?
  {
    match GetEnvironment(host, node.file)
    case None => Trace([TestEvent(node.id, "errored", Some(NoEnvironmentMessage), [])], None)
    case Some(env) =>
      match host.execute(env, node.file, UnitTestRpc, node.id)
      case Err(e) => Trace([], Some(e))
      case Ok(obj) => Trace([CreateTestResults(node, obj)], None)
  }

  /** `runTestNode`: a suite brackets its children's events between its
      `running` and `completed` events; a test's `running` event precedes
      what running it emits. An error stops everything after it. */
  function NodeTrace(host: Host, node: Node): Trace
    decreases node
  {
    match node
    case Suite(id, _, children) =>
      var inner := ChildrenTrace(host, children);
      Trace([SuiteEvent(id, Running)] + inner.events +
            (if inner.failure.None? then [SuiteEvent(id, Completed)] else []),
            inner.failure)
    case Test(id, _, _, _) =>
      var t := SingleTestTrace(host, node);
      Trace([TestRunning(id)] + t.events, t.failure)
  }

  /** The children of a suite run one after another until one fails. */
  function ChildrenTrace(host: Host, children: seq<Node>): Trace
    decreases children
  {
    if children == [] then Trace([], None)
    else
      var prev := ChildrenTrace(host, children[..|children| - 1]);
      if prev.failure.Some? then prev
      else
        var last := NodeTrace(host, children[|children| - 1]);
        Trace(prev.events + last.events, last.failure)
  }

  /** The events for one selected id: none when it resolves to nothing,
      an error when no suite has been loaded. */
  function IdTrace(host: Host, root: Option<Node>, id: string): Trace {
    match root
    case None => Trace([], Some(UndefinedSuiteError))
    case Some(r) =>
      match FindNode(r, id)
      case None => Trace([], None)
      case Some(node) => NodeTrace(host, node)
  }

  /** `runSelectedTests`: the selected ids in the caller's order, until one
      fails. */
  function SelectedTrace(host: Host, root: Option<Node>, ids: seq<string>): Trace {
    if ids == [] then Trace([], None)
    else
      var prev := SelectedTrace(host, root, ids[..|ids| - 1]);
      if prev.failure.Some? then prev
      else
        var last := IdTrace(host, root, ids[|ids| - 1]);
        Trace(prev.events + last.events, last.failure)
  }

  /** Running `a` and then `b` as one sequence of siblings: `b` runs only
      when `a` finished without error. */
  lemma {:induction false} ChildrenTraceAppend(host: Host, a: seq<Node>, b: seq<Node>)
    ensures var ta := ChildrenTrace(host, a);
      ChildrenTrace(host, a + b) ==
        if ta.failure.Some? then ta
        else Trace(ta.events + ChildrenTrace(host, b).events, ChildrenTrace(host, b).failure)
    decreases |b|
  {
    if b == [] {
      assert a + b == a;
      assert ChildrenTrace(host, a).events + [] == ChildrenTrace(host, a).events;
    } else {
      assert (a + b)[..|a + b| - 1] == a + b[..|b| - 1];
      ChildrenTraceAppend(host, a, b[..|b| - 1]);
      ConcatAssociative(ChildrenTrace(host, a).events, ChildrenTrace(host, b[..|b| - 1]).events,
                        NodeTrace(host, b[|b| - 1]).events);
    }
  }

  /** Selecting `a` and then `b`: the ids of `b` run only when those of `a`
      finished without error. */
  lemma {:induction false} SelectedTraceAppend(host: Host, root: Option<Node>, a: seq<string>, b: seq<string>)
    ensures var ta := SelectedTrace(host, root, a);
      SelectedTrace(host, root, a + b) ==
        if ta.failure.Some? then ta
        else Trace(ta.events + SelectedTrace(host, root, b).events, SelectedTrace(host, root, b).failure)
    decreases |b|
  {
    if b == [] {
      assert a + b == a;
      assert SelectedTrace(host, root, a).events + [] == SelectedTrace(host, root, a).events;
    } else {
      assert (a + b)[..|a + b| - 1] == a + b[..|b| - 1];
      SelectedTraceAppend(host, root, a, b[..|b| - 1]);
      ConcatAssociative(SelectedTrace(host, root, a).events, SelectedTrace(host, root, b[..|b| - 1]).events,
                        IdTrace(host, root, b[|b| - 1]).events);
    }
  }

  /** The events of each sibling's own run, concatenated from the first
      sibling to the last. */
  function SiblingEvents(host: Host, cs: seq<Node>): seq<Event>
    decreases cs
  {
    if cs == [] then [] else NodeTrace(host, cs[0]).events + SiblingEvents(host, cs[1..])
  }

  lemma {:induction false} SiblingEventsAppend(host: Host, a: seq<Node>, b: seq<Node>)
    ensures SiblingEvents(host, a + b) == SiblingEvents(host, a) + SiblingEvents(host, b)
    decreases |a|
  {
    if a == [] {
      assert a + b == b;
    } else {
      assert (a + b)[1..] == a[1..] + b;
      SiblingEventsAppend(host, a[1..], b);
      ConcatAssociative(NodeTrace(host, a[0]).events, SiblingEvents(host, a[1..]), SiblingEvents(host, b));
    }
  }

  /** The children of a suite run in their listed order: the run succeeds
      exactly when every child's run succeeds, and then holds every child's
      events in order. */
  lemma {:induction false} ChildrenTraceSucceeds(host: Host, cs: seq<Node>)
    ensures var t := ChildrenTrace(host, cs);
      && (t.failure.None? <==> forall i :: 0 <= i < |cs| ==> NodeTrace(host, cs[i]).failure.None?)
      && (t.failure.None? ==> t.events == SiblingEvents(host, cs))
    decreases |cs|
  {
    if cs != [] {
      var init := cs[..|cs| - 1];
      var last := cs[|cs| - 1];
      ChildrenTraceSucceeds(host, init);
      assert forall i :: 0 <= i < |init| ==> cs[i] == init[i];
      if ChildrenTrace(host, init).failure.None? {
        SiblingEventsAppend(host, init, [last]);
        assert [last][1..] == [];
        assert cs == init + [last];
      }
    } else {
      assert SiblingEvents(host, cs) == [];
    }
  }

  /** Child `k` is the first of `cs` to fail, and the failed run of the
      children consists of the events of the children before it followed by
      that child's partial events, ending with its error. */
  predicate AbortsAt(host: Host, cs: seq<Node>, k: int) {
    && 0 <= k < |cs| && NodeTrace(host, cs[k]).failure.Some?
    && (forall i :: 0 <= i < k ==> NodeTrace(host, cs[i]).failure.None?)
    && ChildrenTrace(host, cs).events == SiblingEvents(host, cs[..k]) + NodeTrace(host, cs[k]).events
    && ChildrenTrace(host, cs).failure == NodeTrace(host, cs[k]).failure
  }

  /** An error aborts the siblings after it: a failed run of the children
      ends with the first failing child. */
  lemma {:induction false} ChildrenTraceAborts(host: Host, cs: seq<Node>)
    requires ChildrenTrace(host, cs).failure.Some?
    ensures exists k :: AbortsAt(host, cs, k)
    decreases |cs|
  {
    var init := cs[..|cs| - 1];
    var prev := ChildrenTrace(host, init);
    if prev.failure.Some? {
      ChildrenTraceAborts(host, init);
      var k :| AbortsAt(host, init, k);
      assert forall i :: 0 <= i <= k ==> cs[i] == init[i];
      assert cs[..k] == init[..k];
      assert ChildrenTrace(host, cs) == prev;
      assert AbortsAt(host, cs, k);
    } else {
      ChildrenTraceSucceeds(host, init);
      var k := |init|;
      assert cs[..k] == init;
      assert forall i :: 0 <= i < k ==> cs[i] == init[i];
      assert ChildrenTrace(host, cs) ==
             Trace(prev.events + NodeTrace(host, cs[k]).events, NodeTrace(host, cs[k]).failure);
      assert AbortsAt(host, cs, k);
    }
  }

  /** One more child runs after children that finished without error. */
  lemma ChildrenTraceStep(host: Host, children: seq<Node>, i: nat)
    requires i < |children| && ChildrenTrace(host, children[..i]).failure.None?
    ensures ChildrenTrace(host, children[..i + 1]) ==
      Trace(ChildrenTrace(host, children[..i]).events + NodeTrace(host, children[i]).events,
            NodeTrace(host, children[i]).failure)
  {
    assert children[..i + 1][..i] == children[..i];
  }

  /** Once some prefix of the children fails, the whole run is that prefix's. */
  lemma ChildrenTraceStops(host: Host, children: seq<Node>, n: nat)
    requires n <= |children| && ChildrenTrace(host, children[..n]).failure.Some?
    ensures ChildrenTrace(host, children) == ChildrenTrace(host, children[..n])
  {
    assert children == children[..n] + children[n..];
    ChildrenTraceAppend(host, children[..n], children[n..]);
  }

  /** Whether an event announces that a suite or a test starts running. A
      test's own `running` event carries no message; every event that ends a
      test carries one. */
  predicate IsStart(e: Event) {
    || (e.SuiteEvent? && e.suiteState == Running)
    || (e.TestEvent? && e.state == "running" && e.message.None?)
  }

  /** The ids of the nodes whose start the events announce, in order. */
  function StartedIds(events: seq<Event>): seq<string> {
    if events == [] then []
    else
      var e := events[|events| - 1];
      StartedIds(events[..|events| - 1]) +
        (if !IsStart(e) then [] else if e.SuiteEvent? then [e.suite] else [e.test])
  }

  lemma {:induction false} StartedIdsAppend(a: seq<Event>, b: seq<Event>)
    ensures StartedIds(a + b) == StartedIds(a) + StartedIds(b)
    decreases |b|
  {
    if b == [] {
      assert a + b == a;
    } else {
      var e := b[|b| - 1];
      assert (a + b)[..|a + b| - 1] == a + b[..|b| - 1];
      StartedIdsAppend(a, b[..|b| - 1]);
      ConcatAssociative(StartedIds(a), StartedIds(b[..|b| - 1]),
                        if !IsStart(e) then [] else if e.SuiteEvent? then [e.suite] else [e.test]);
    }
  }

  /** Only suite and test state events are fired while running a node. */
  predicate StateEventsOnly(events: seq<Event>) {
    forall i :: 0 <= i < |events| ==> events[i].SuiteEvent? || events[i].TestEvent?
  }

  /** What a test's own run announces: itself, once. */
  lemma TestTraceStarts(host: Host, n: Node)
    requires n.Test?
    ensures var t := NodeTrace(host, n);
      && StateEventsOnly(t.events)
      && StartedIds(t.events) == [n.id]
      && (t.failure.None? ==> |t.events| == 2)
  {
    var st := SingleTestTrace(host, n);
    assert NodeTrace(host, n) == Trace([TestRunning(n.id)] + st.events, st.failure);
    assert StartedIds([TestRunning(n.id)]) == [n.id];
    StartedIdsAppend([TestRunning(n.id)], st.events);
    assert StartedIds(st.events) == [] && StateEventsOnly(st.events) by {
      if st.events != [] {
        assert |st.events| == 1 && st.events[0].TestEvent? && st.events[0].message.Some?;
        assert st.events[..0] == [];
      }
    }
    StateEventsOnlyAppend([TestRunning(n.id)], st.events);
  }

  /** A suite's `running` and `completed` events around `evs` announce the
      suite, then what `evs` announces. */
  lemma BracketStarts(id: string, evs: seq<Event>, tail: seq<Event>)
    requires tail == [] || tail == [SuiteEvent(id, Completed)]
    ensures StartedIds([SuiteEvent(id, Running)] + evs + tail) == [id] + StartedIds(evs)
  {
    assert StartedIds([SuiteEvent(id, Running)]) == [id];
    if tail != [] {
      assert tail[..0] == [];
    }
    StartedIdsAppend([SuiteEvent(id, Running)], evs);
    StartedIdsAppend([SuiteEvent(id, Running)] + evs, tail);
  }

  /** Running a node starts the nodes of its subtree in depth-first
      pre-order: the started ids are always a prefix of the pre-order's ids,
      and all of them when no error occurs. A successful run fires exactly two
      events per node (start and end), and only state events are fired. */
  lemma {:induction false} NodeTraceFollowsPreOrder(host: Host, n: Node)
    ensures var t := NodeTrace(host, n);
      && StateEventsOnly(t.events)
      && StartedIds(t.events) <= Ids(PreOrder(n))
      && (t.failure.None? ==> StartedIds(t.events) == Ids(PreOrder(n)) && |t.events| == 2 * |PreOrder(n)|)
    decreases n
  {
    match n
    case Test(id, _, _, _) =>
      TestTraceStarts(host, n);
      assert Ids([n]) == [id];
    case Suite(_, _, children) =>
      ChildrenTraceFollowsPreOrder(host, children);
      SuiteTraceFollowsPreOrder(host, n);
  }

  /** The step of `NodeTraceFollowsPreOrder` for a suite, from the same
      facts about its children. */
  lemma SuiteTraceFollowsPreOrder(host: Host, n: Node)
    requires n.Suite?
    requires var inner := ChildrenTrace(host, n.children);
      && StateEventsOnly(inner.events)
      && StartedIds(inner.events) <= Ids(PreOrderAll(n.children))
      && (inner.failure.None? ==> StartedIds(inner.events) == Ids(PreOrderAll(n.children)) &&
                                  |inner.events| == 2 * |PreOrderAll(n.children)|)
    ensures var t := NodeTrace(host, n);
      && StateEventsOnly(t.events)
      && StartedIds(t.events) <= Ids(PreOrder(n))
      && (t.failure.None? ==> StartedIds(t.events) == Ids(PreOrder(n)) && |t.events| == 2 * |PreOrder(n)|)
  {
    var inner := ChildrenTrace(host, n.children);
    var tail: seq<Event> := if inner.failure.None? then [SuiteEvent(n.id, Completed)] else [];
    var evs := [SuiteEvent(n.id, Running)] + inner.events + tail;
    var below := Ids(PreOrderAll(n.children));
    assert NodeTrace(host, n) == Trace(evs, inner.failure);
    StateEventsOnlyAppend([SuiteEvent(n.id, Running)], inner.events);
    StateEventsOnlyAppend([SuiteEvent(n.id, Running)] + inner.events, tail);
    BracketStarts(n.id, inner.events, tail);
    IdsAppend([n], PreOrderAll(n.children));
    assert Ids([n]) == [n.id];
    assert Ids(PreOrder(n)) == [n.id] + below;
    PrefixAfterCommonPart([n.id], StartedIds(inner.events), below);
  }

  lemma StateEventsOnlyAppend(a: seq<Event>, b: seq<Event>)
    requires StateEventsOnly(a) && StateEventsOnly(b)
    ensures StateEventsOnly(a + b)
  {
    forall i | 0 <= i < |a + b|
      ensures (a + b)[i].SuiteEvent? || (a + b)[i].TestEvent?
    {
      if i >= |a| {
        assert (a + b)[i] == b[i - |a|];
      }
    }
  }

  lemma {:induction false} ChildrenTraceFollowsPreOrder(host: Host, cs: seq<Node>)
    ensures var t := ChildrenTrace(host, cs);
      && StateEventsOnly(t.events)
      && StartedIds(t.events) <= Ids(PreOrderAll(cs))
      && (t.failure.None? ==> StartedIds(t.events) == Ids(PreOrderAll(cs)) &&
                              |t.events| == 2 * |PreOrderAll(cs)|)
    decreases cs
  {
    if cs != [] {
      var init := cs[..|cs| - 1];
      var last := cs[|cs| - 1];
      var prev := ChildrenTrace(host, init);
      var before := Ids(PreOrderAll(init));
      var here := Ids(PreOrder(last));
      ChildrenTraceFollowsPreOrder(host, init);
      assert PreOrderAll(cs) == PreOrderAll(init) + PreOrder(last);
      IdsAppend(PreOrderAll(init), PreOrder(last));
      assert Ids(PreOrderAll(cs)) == before + here;
      if prev.failure.Some? {
        assert ChildrenTrace(host, cs) == prev;
        PrefixOfExtension(StartedIds(prev.events), before, here);
      } else {
        var lt := NodeTrace(host, last);
        NodeTraceFollowsPreOrder(host, last);
        assert ChildrenTrace(host, cs) == Trace(prev.events + lt.events, lt.failure);
        StateEventsOnlyAppend(prev.events, lt.events);
        StartedIdsAppend(prev.events, lt.events);
        assert StartedIds(prev.events + lt.events) == before + StartedIds(lt.events);
        PrefixAfterCommonPart(before, StartedIds(lt.events), here);
      }
    }
  }

  /** The runner only fires suite and test state events: never the
      `started` or `finished` events of a run. */
  lemma {:induction false} SelectedTraceStateEventsOnly(host: Host, root: Option<Node>, ids: seq<string>)
    ensures StateEventsOnly(SelectedTrace(host, root, ids).events)
  {
    if ids != [] {
      SelectedTraceStateEventsOnly(host, root, ids[..|ids| - 1]);
      if root.Some? {
        var found := FindNode(root.value, ids[|ids| - 1]);
        if found.Some? {
          NodeTraceFollowsPreOrder(host, found.value);
        }
      }
    }
  }

  /** A selected id that matches no node of the loaded tree fires nothing
      and does not stop the ids after it. */
  lemma UnknownIdIsSkipped(host: Host, root: Node, a: seq<string>, id: string, b: seq<string>)
    requires FindNode(root, id).None?
    ensures SelectedTrace(host, Some(root), a + [id] + b) == SelectedTrace(host, Some(root), a + b)
  {
    assert SelectedTrace(host, Some(root), [id]) == Trace([], None) by {
      assert [id][..0] == [];
    }
    SelectedTraceAppend(host, Some(root), a, [id]);
    SelectedTraceAppend(host, Some(root), a + [id], b);
    SelectedTraceAppend(host, Some(root), a, b);
    assert SelectedTrace(host, Some(root), a + [id]) == SelectedTrace(host, Some(root), a);
  }

  /** Without a loaded tree, a non-empty selection fails on its first id
      and fires nothing. */
  lemma {:induction false} NothingLoadedFails(host: Host, ids: seq<string>)
    ensures SelectedTrace(host, None, ids) ==
      if ids == [] then Trace([], None) else Trace([], Some(UndefinedSuiteError))
  {
    if ids != [] {
      NothingLoadedFails(host, ids[..|ids| - 1]);
    }
  }

  /** A test's run begins with its `running` event. When no environment is
      found it ends with a single `errored` event and the run carries on;
      when the host fails nothing else is fired and the run stops; otherwise
      exactly one event, built from the payload, ends it. */
  lemma TestTraceShape(host: Host, n: Node)
    requires n.Test?
    ensures var t := NodeTrace(host, n);
      && |t.events| >= 1 && t.events[0] == TestRunning(n.id)
      && (GetEnvironment(host, n.file).None? ==>
            t == Trace([TestRunning(n.id), TestEvent(n.id, "errored", Some(NoEnvironmentMessage), [])], None))
      && (t.failure.Some? ==>
            && t.events == [TestRunning(n.id)]
            && GetEnvironment(host, n.file).Some?
            && host.execute(GetEnvironment(host, n.file).value, n.file, UnitTestRpc, n.id) ==
                 Err(t.failure.value))
      && (t.failure.None? && GetEnvironment(host, n.file).Some? ==>
            var out := host.execute(GetEnvironment(host, n.file).value, n.file, UnitTestRpc, n.id);
            out.Ok? && t.events == [TestRunning(n.id), CreateTestResults(n, out.value)])
  {
  }

  /** One more id runs after ids that finished without error. */
  lemma SelectedTraceStep(host: Host, root: Option<Node>, ids: seq<string>, i: nat)
    requires i < |ids| && SelectedTrace(host, root, ids[..i]).failure.None?
    ensures SelectedTrace(host, root, ids[..i + 1]) ==
      Trace(SelectedTrace(host, root, ids[..i]).events + IdTrace(host, root, ids[i]).events,
            IdTrace(host, root, ids[i]).failure)
  {
    assert ids[..i + 1][..i] == ids[..i];
  }

  /** Once some prefix of the ids fails, the whole selection's run is that
      prefix's. */
  lemma SelectedTraceStops(host: Host, root: Option<Node>, ids: seq<string>, n: nat)
    requires n <= |ids| && SelectedTrace(host, root, ids[..n]).failure.Some?
    ensures SelectedTrace(host, root, ids) == SelectedTrace(host, root, ids[..n])
  {
    assert ids == ids[..n] + ids[n..];
    SelectedTraceAppend(host, root, ids[..n], ids[n..]);
  }

  /** Runs the selected part of the loaded tree, firing its events on the
      shared emitter. */
  class PslUnitTestRunner {
    const loadedTestSuite: Option<Node>
    const testStatesEmitter: Emitter
    const host: Host

    constructor (loadedTestSuite: Option<Node>, testStatesEmitter: Emitter, host: Host)
      ensures this.loadedTestSuite == loadedTestSuite
      ensures this.testStatesEmitter == testStatesEmitter
      ensures this.host == host
    {
      this.loadedTestSuite := loadedTestSuite;
      this.testStatesEmitter := testStatesEmitter;
      this.host := host;
    }

    method RunSelectedTests(tests: seq<string>) returns (failure: Option<string>)
      modifies testStatesEmitter
      ensures testStatesEmitter.log == old(testStatesEmitter.log) +
                                       SelectedTrace(host, loadedTestSuite, tests).events
      ensures failure == SelectedTrace(host, loadedTestSuite, tests).failure
      ensures testStatesEmitter.disposals == old(testStatesEmitter.disposals)
    {
      var i := 0;
      while i < |tests|
        invariant 0 <= i <= |tests|
        invariant SelectedTrace(host, loadedTestSuite, tests[..i]).failure.None?
        invariant testStatesEmitter.log == old(testStatesEmitter.log) +
                                           SelectedTrace(host, loadedTestSuite, tests[..i]).events
        invariant testStatesEmitter.disposals == old(testStatesEmitter.disposals)
      {
        ghost var before := SelectedTrace(host, loadedTestSuite, tests[..i]).events;
        SelectedTraceStep(host, loadedTestSuite, tests, i);
        if loadedTestSuite.None? {
          assert before + [] == before;
          SelectedTraceStops(host, loadedTestSuite, tests, i + 1);
          return Some(UndefinedSuiteError);
        }
        var node := FindNode(loadedTestSuite.value, tests[i]);
        if node.Some? {
          assert IdTrace(host, loadedTestSuite, tests[i]) == NodeTrace(host, node.value);
          ConcatAssociative(old(testStatesEmitter.log), before, NodeTrace(host, node.value).events);
          failure := RunTestNode(node.value);
          if failure.Some? {
            SelectedTraceStops(host, loadedTestSuite, tests, i + 1);
            return;
          }
        } else {
          assert IdTrace(host, loadedTestSuite, tests[i]) == Trace([], None);
          assert before + [] == before;
        }
        i := i + 1;
      }
      assert tests[..i] == tests;
      failure := None;
    }

    method RunTestNode(node: Node) returns (failure: Option<string>)
      modifies testStatesEmitter
      ensures testStatesEmitter.log == old(testStatesEmitter.log) + NodeTrace(host, node).events
      ensures failure == NodeTrace(host, node).failure
      ensures testStatesEmitter.disposals == old(testStatesEmitter.disposals)
      decreases node
    {
      match node
      case Suite(id, _, children) =>
        ghost var start := testStatesEmitter.log + [SuiteEvent(id, Running)];
        testStatesEmitter.Fire(SuiteEvent(id, Running));
        var i := 0;
        while i < |children|
          invariant 0 <= i <= |children|
          invariant ChildrenTrace(host, children[..i]).failure.None?
          invariant testStatesEmitter.log == start + ChildrenTrace(host, children[..i]).events
          invariant testStatesEmitter.disposals == old(testStatesEmitter.disposals)
        {
          ChildrenTraceStep(host, children, i);
          ConcatAssociative(start, ChildrenTrace(host, children[..i]).events, NodeTrace(host, children[i]).events);
          failure := RunTestNode(children[i]);
          if failure.Some? {
            ChildrenTraceStops(host, children, i + 1);
            assert ChildrenTrace(host, children).events + [] == ChildrenTrace(host, children).events;
            ConcatAssociative(old(testStatesEmitter.log), [SuiteEvent(id, Running)], ChildrenTrace(host, children).events);
            return;
          }
          i := i + 1;
        }
        assert children[..i] == children;
        ConcatAssociative(old(testStatesEmitter.log), [SuiteEvent(id, Running)], ChildrenTrace(host, children).events);
        ConcatAssociative(old(testStatesEmitter.log), [SuiteEvent(id, Running)] + ChildrenTrace(host, children).events,
                  [SuiteEvent(id, Completed)]);
        testStatesEmitter.Fire(SuiteEvent(id, Completed));
        failure := None;
      case Test(id, _, _, _) =>
        testStatesEmitter.Fire(TestRunning(id));
        failure := RunSingleUnitTest(node);
    }

    method RunSingleUnitTest(node: Node) returns (failure: Option<string>)
      requires node.Test?
      modifies testStatesEmitter
      ensures testStatesEmitter.log == old(testStatesEmitter.log) + SingleTestTrace(host, node).events
      ensures failure == SingleTestTrace(host, node).failure
      ensures testStatesEmitter.disposals == old(testStatesEmitter.disposals)
    {
      var environment := GetEnvironment(host, node.file);
      if environment.None? {
        testStatesEmitter.Fire(TestEvent(node.id, "errored", Some(NoEnvironmentMessage), []));
        return None;
      }
      var output := host.execute(environment.value, node.file, UnitTestRpc, node.id);
      if output.Err? {
        return Some(output.error);
      }
      testStatesEmitter.Fire(CreateTestResults(node, output.value));
      failure := None;
    }
  }
}

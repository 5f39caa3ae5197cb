/** The test tree shown in the test explorer: suites (one per procedure
    file, plus the synthetic root) owning ordered children, and tests as
    leaves. */
module TestTree {
  import opened Js

  /** `TestSuiteInfo | TestInfo`. A suite's optional `file` and `line` are
      never set by the discovery code, so a suite carries none. A test always
      gets its file path and its declared line from discovery. `caption` is
      the source's `label` (a reserved word in Dafny). */
  datatype Node =
    | Suite(id: string, caption: string, children: seq<Node>)
    | Test(id: string, caption: string, file: string, line: int)

  /** The nodes of the tree rooted at `n` in depth-first pre-order: the node
      itself, then each child's subtree from left to right. */
  function PreOrder(n: Node): (r: seq<Node>)
    ensures |r| > 0 && r[0] == n
    decreases n
  {
    match n
    case Test(_, _, _, _) => [n]
    case Suite(_, _, children) => [n] + PreOrderAll(children)
  }

  /** The pre-orders of a sequence of sibling trees, concatenated. */
  function PreOrderAll(cs: seq<Node>): seq<Node>
    decreases cs
  {
    if cs == [] then []
    else PreOrderAll(cs[..|cs| - 1]) + PreOrder(cs[|cs| - 1])
  }

  lemma {:induction false} PreOrderAllCons(c: Node, cs: seq<Node>)
    ensures PreOrderAll([c] + cs) == PreOrder(c) + PreOrderAll(cs)
    decreases |cs|
  {
    if cs == [] {
      assert ([c] + cs)[..0] == [];
    } else {
      var front := cs[..|cs| - 1];
      assert ([c] + cs)[..|cs|] == [c] + front;
      PreOrderAllCons(c, front);
      ConcatAssociative(PreOrder(c), PreOrderAll(front), PreOrder(cs[|cs| - 1]));
    }
  }

  /** The ids of a sequence of nodes, in order. */
  function Ids(s: seq<Node>): (r: seq<string>)
    ensures |r| == |s| && forall i :: 0 <= i < |s| ==> r[i] == s[i].id
  {
    if s == [] then [] else Ids(s[..|s| - 1]) + [s[|s| - 1].id]
  }

  lemma {:induction false} IdsAppend(a: seq<Node>, b: seq<Node>)
    ensures Ids(a + b) == Ids(a) + Ids(b)
  {
  }

  /** How many of the nodes are tests. */
  function TestCount(s: seq<Node>): (r: nat)
    ensures r <= |s|
  {
    if s == [] then 0
    else TestCount(s[..|s| - 1]) + (if s[|s| - 1].Test? then 1 else 0)
  }

  lemma {:induction false} TestCountAppend(a: seq<Node>, b: seq<Node>)
    ensures TestCount(a + b) == TestCount(a) + TestCount(b)
    decreases |b|
  {
    if b != [] {
      assert (a + b)[..|a + b| - 1] == a + b[..|b| - 1];
      TestCountAppend(a, b[..|b| - 1]);
    } else {
      assert a + b == a;
    }
  }
}

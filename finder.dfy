/** Discovery of PSL unit tests (src/adapter/psl-unit-test-finder.ts): which
    procedure files are suites, which of their methods are tests, and the
    suite nodes built from them. The directory listing and the PSL parser are
    inputs. */
module Finder {
  import opened Js
  import opened TestTree

  /** The directory, under the workspace root, that holds the procedures. */
  const ProcedureSubDirectory: string := "dataqwik/procedure/"
  /** The procedure that dispatches unit tests on the host; never a suite. */
  const RpcProcedureFile: string := "ZTestRPC.PROC"
  const SuitePrefix: string := "ZTest"
  const ProcedureExtension: string := ".PROC"
  const TestPrefix: string := "test"

  /** A method as the PSL parser reports it: `method.id.value` and
      `method.line`. */
  datatype Method = Method(name: string, line: int)

  /** What discovery sees of a workspace folder: its root path, the outcome of
      listing the procedure directory, and the parser's outcome for each file
      path. */
  datatype Workspace = Workspace(
    root: string,
    listing: Result<seq<string>>,
    parse: string -> Result<seq<Method>>)

  /** `path.join(root, ProcedureSubDirectory)`; path normalisation is not
      modelled. */
  function UnitTestDirectory(root: string): (dir: string)
    ensures |dir| > 0 && dir[|dir| - 1] == '/'
  {
    root + "/" + ProcedureSubDirectory
  }

  /** The base name of the path with its last extension removed. A name
      whose only '.' is its first character, or that has no '.', is kept. */
  function GetFileNameWithoutExtension(fsPath: string): string {
    var basename := Basename(fsPath);
    var lastPeriod := LastIndexOf(basename, '.');
    if lastPeriod > 0 then basename[..lastPeriod] else basename
  }

  /** The stripped name is a prefix of the base name. When the base name has
      a '.' after its first character, the prefix stops just before the last
      '.'; otherwise it is the whole base name. */
  lemma GetFileNameWithoutExtensionSpec(fsPath: string)
    ensures var b := Basename(fsPath);
      var r := GetFileNameWithoutExtension(fsPath);
      && |r| <= |b| && r == b[..|r|]
      && ((exists i :: 0 < i < |b| && b[i] == '.') ==>
            0 < |r| < |b| && b[|r|] == '.' && forall k :: |r| < k < |b| ==> b[k] != '.')
      && (!(exists i :: 0 < i < |b| && b[i] == '.') ==> r == b)
  {
  }

  predicate IsTestMethod(m: Method) {
    StartsWith(m.name, TestPrefix)
  }

  /** A method is a test exactly when its name is "test" followed by
      anything; the comparison is case-sensitive. */
  lemma IsTestMethodIff(m: Method)
    ensures IsTestMethod(m) <==> exists rest: string :: m.name == "test" + rest
  {
    StartsWithIff(m.name, TestPrefix);
  }

  predicate IsTestProcedure(fileName: string) {
    if fileName == RpcProcedureFile then false
    else StartsWith(fileName, SuitePrefix) && EndsWith(fileName, ProcedureExtension)
  }

  /** A file is a suite exactly when it is not the dispatcher and its name
      is "ZTest" followed by anything and also anything followed by ".PROC". */
  lemma IsTestProcedureIff(f: string)
    ensures IsTestProcedure(f) <==>
      && f != "ZTestRPC.PROC"
      && (exists tail: string :: f == "ZTest" + tail)
      && (exists front: string :: f == front + ".PROC")
  {
    StartsWithIff(f, SuitePrefix);
    EndsWithIff(f, ProcedureExtension);
  }

  /** A plain file name (no '/') is its own base name. */
  lemma BasenameOfPlainName(f: string)
    requires '/' !in f
    ensures Basename(f) == f
  {
    assert LastIndexOf(f, '/') == -1;
  }

  /** The prefix and the extension of a suite file never overlap, and the
      suite id derived from it is the file name without ".PROC". */
  lemma SuiteIdOfTestProcedure(f: string)
    requires IsTestProcedure(f) && '/' !in f
    ensures |f| >= 10
    ensures GetFileNameWithoutExtension(f) + ".PROC" == f
    ensures GetFileNameWithoutExtension(f) == f[..|f| - 5]
  {
    assert |f| >= 10 by {
      assert f[..5] == SuitePrefix;
      assert forall k :: 0 <= k < 5 ==> f[k] != '.';
      assert f[|f| - 5..] == ProcedureExtension;
      assert f[|f| - 5] == '.';
    }
    assert LastIndexOf(f, '.') == |f| - 5 by {
      assert f[|f| - 5..] == ProcedureExtension;
      assert f[|f| - 5] == '.';
      assert forall k :: |f| - 5 < k < |f| ==> f[k] != '.';
    }
    BasenameOfPlainName(f);
    assert f == f[..|f| - 5] + ".PROC" by {
      assert f[|f| - 5..] == ProcedureExtension;
    }
  }

  /** A test node for one method of the file at `fsPath`, whose suite id is
      `fileName`. */
  function CreateTestInfo(fsPath: string, fileName: string, m: Method): (t: Node)
    ensures t.Test? && t.caption == m.name && t.file == fsPath && t.line == m.line
    ensures t.id == m.name + "^" + fileName
  {
    Test(m.name + "^" + fileName, m.name, fsPath, m.line)
  }

  /** Within one suite, two tests share an id exactly when their methods share
      a name. */
  lemma TestIdInjective(fsPath: string, fileName: string, m1: Method, m2: Method)
    ensures CreateTestInfo(fsPath, fileName, m1).id == CreateTestInfo(fsPath, fileName, m2).id
        <==> m1.name == m2.name
  {
    var id1 := CreateTestInfo(fsPath, fileName, m1).id;
    var id2 := CreateTestInfo(fsPath, fileName, m2).id;
    if id1 == id2 {
      assert |m1.name| == |m2.name|;
      assert m1.name == id1[..|m1.name|];
    }
  }

  /** When method names contain no '^', a test id determines both the
      method name and the suite id. */
  lemma TestIdDeterminesMethodAndSuite(fsPath1: string, fileName1: string, m1: Method,
                                       fsPath2: string, fileName2: string, m2: Method)
    requires '^' !in m1.name && '^' !in m2.name
    ensures CreateTestInfo(fsPath1, fileName1, m1).id == CreateTestInfo(fsPath2, fileName2, m2).id
        <==> m1.name == m2.name && fileName1 == fileName2
  {
    var id1 := CreateTestInfo(fsPath1, fileName1, m1).id;
    var id2 := CreateTestInfo(fsPath2, fileName2, m2).id;
    assert forall k :: 0 <= k < |m1.name| ==> id1[k] != '^';
    assert id1[|m1.name|] == '^';
    assert forall k :: 0 <= k < |m2.name| ==> id2[k] != '^';
    assert id2[|m2.name|] == '^';
    if id1 == id2 {
      assert |m1.name| == |m2.name|;
      assert m1.name == id1[..|m1.name|];
      assert m2.name == id2[..|m2.name|];
      assert fileName1 == id1[|m1.name| + 1..];
      assert fileName2 == id2[|m2.name| + 1..];
    }
  }

  /** The parsed methods that are tests, in parser order. */
  function TestMethods(methods: seq<Method>): seq<Method> {
    Filter(IsTestMethod, methods)
  }

  /** The test nodes for the given methods, one per method, in order. */
  function TestInfos(fsPath: string, fileName: string, methods: seq<Method>): (r: seq<Node>)
    ensures |r| == |methods|
    ensures forall i :: 0 <= i < |r| ==> r[i] == CreateTestInfo(fsPath, fileName, methods[i])
  {
    seq(|methods|, i requires 0 <= i < |methods| => CreateTestInfo(fsPath, fileName, methods[i]))
  }

  /** The suite for the procedure at `fsPath`, given what the parser found in
      it: named after the file, holding one test per test method. */
  function CreateTestSuite(fsPath: string, methods: seq<Method>): (s: Node)
    ensures s.Suite? && s.id == GetFileNameWithoutExtension(fsPath) && s.caption == s.id
    ensures |s.children| <= |methods|
    ensures forall c :: c in s.children ==>
      && c.Test? && c.file == fsPath && StartsWith(c.caption, TestPrefix)
      && c.id == c.caption + "^" + s.id
      && Method(c.caption, c.line) in methods
  {
    var fileName := GetFileNameWithoutExtension(fsPath);
    Suite(fileName, fileName, TestInfos(fsPath, fileName, TestMethods(methods)))
  }

  /** Every test method of the file has its test in the suite. */
  lemma CreateTestSuiteComplete(fsPath: string, methods: seq<Method>, m: Method)
    requires m in methods && IsTestMethod(m)
    ensures var s := CreateTestSuite(fsPath, methods);
      CreateTestInfo(fsPath, s.id, m) in s.children
  {
    var tests := TestMethods(methods);
    assert m in tests;
    var j :| 0 <= j < |tests| && tests[j] == m;
    assert CreateTestSuite(fsPath, methods).children[j] ==
           CreateTestInfo(fsPath, GetFileNameWithoutExtension(fsPath), m);
  }

  /** Adding methods to a file appends their tests after the existing ones:
      the children follow parser order. */
  lemma {:induction false} CreateTestSuiteAppend(fsPath: string, a: seq<Method>, b: seq<Method>)
    ensures CreateTestSuite(fsPath, a + b).children
         == CreateTestSuite(fsPath, a).children + CreateTestSuite(fsPath, b).children
  {
    FilterAppend(IsTestMethod, a, b);
    TestInfosAppend(fsPath, GetFileNameWithoutExtension(fsPath), TestMethods(a), TestMethods(b));
  }

  lemma TestInfosAppend(fsPath: string, fileName: string, a: seq<Method>, b: seq<Method>)
    ensures TestInfos(fsPath, fileName, a + b)
         == TestInfos(fsPath, fileName, a) + TestInfos(fsPath, fileName, b)
  {
    var r := TestInfos(fsPath, fileName, a + b);
    var l := TestInfos(fsPath, fileName, a) + TestInfos(fsPath, fileName, b);
    forall i | 0 <= i < |r|
      ensures r[i] == l[i]
    {
      if i >= |a| {
        assert (a + b)[i] == b[i - |a|];
      }
    }
  }

  /** One method yields one test when it is a test method, and nothing
      otherwise. */
  lemma CreateTestSuiteOfOne(fsPath: string, m: Method)
    ensures CreateTestSuite(fsPath, [m]).children ==
      if IsTestMethod(m) then [CreateTestInfo(fsPath, GetFileNameWithoutExtension(fsPath), m)] else []
  {
    assert [m][..0] == [];
  }

  /** The suite of `ZTestDemo.PROC` with methods `testA`, `helperB` and
      `testC` holds the tests `testA^ZTestDemo` and `testC^ZTestDemo`, in that
      order, wherever the directory is. */
  lemma CreateTestSuiteExample(dir: string)
    requires |dir| > 0 && dir[|dir| - 1] == '/'
    ensures var fsPath := dir + "ZTestDemo.PROC";
      CreateTestSuite(fsPath, [Method("testA", 3), Method("helperB", 7), Method("testC", 12)])
        == Suite("ZTestDemo", "ZTestDemo",
                 [Test("testA^ZTestDemo", "testA", fsPath, 3), Test("testC^ZTestDemo", "testC", fsPath, 12)])
  {
    var fsPath := dir + "ZTestDemo.PROC";
    assert GetFileNameWithoutExtension(fsPath) == "ZTestDemo" by {
      ExampleIsTestProcedure("ZTestDemo.PROC");
      SuiteIdOfJoin(dir, "ZTestDemo.PROC");
      SuiteIdExample();
    }
    ExampleSuiteChildren(fsPath);
    ExampleTestNodes(fsPath);
  }

  lemma ExampleSuiteChildren(fsPath: string)
    ensures var id := GetFileNameWithoutExtension(fsPath);
      CreateTestSuite(fsPath, [Method("testA", 3), Method("helperB", 7), Method("testC", 12)]).children
        == [CreateTestInfo(fsPath, id, Method("testA", 3)), CreateTestInfo(fsPath, id, Method("testC", 12))]
  {
    var a, h, c := Method("testA", 3), Method("helperB", 7), Method("testC", 12);
    var id := GetFileNameWithoutExtension(fsPath);
    var r := TestInfos(fsPath, id, [a, c]);
    assert CreateTestSuite(fsPath, [a, h, c]).children == r by {
      TestMethodsExample();
    }
    assert r == [CreateTestInfo(fsPath, id, a), CreateTestInfo(fsPath, id, c)] by {
      assert |r| == 2 && r[0] == CreateTestInfo(fsPath, id, a) && r[1] == CreateTestInfo(fsPath, id, c);
    }
  }

  lemma ExampleTestNodes(fsPath: string)
    ensures CreateTestInfo(fsPath, "ZTestDemo", Method("testA", 3)) == Test("testA^ZTestDemo", "testA", fsPath, 3)
    ensures CreateTestInfo(fsPath, "ZTestDemo", Method("testC", 12)) == Test("testC^ZTestDemo", "testC", fsPath, 12)
  {
    assert "testA" + "^" + "ZTestDemo" == "testA^ZTestDemo";
    assert "testC" + "^" + "ZTestDemo" == "testC^ZTestDemo";
  }

  /** The procedure file names accepted as suites, in listing order. */
  function TestProcedures(names: seq<string>): seq<string> {
    Filter(IsTestProcedure, names)
  }

  /** The parser's outcome for each path, as `Promise.all` settles it: every
      file's methods in path order, or the error of the first path (in path
      order) that fails to parse. */
  function ParseAll(paths: seq<string>, parse: string -> Result<seq<Method>>)
    : (r: Result<seq<seq<Method>>>)
    ensures r.Ok? ==> |r.value| == |paths|
  {
    if paths == [] then Ok([])
    else
      var front := ParseAll(paths[..|paths| - 1], parse);
      if front.Err? then front
      else match parse(paths[|paths| - 1])
        case Err(e) => Err(e)
        case Ok(methods) => Ok(front.value + [methods])
  }

  /** Parsing succeeds exactly when every file parses, and then gives each
      file's methods at that file's position. */
  lemma {:induction false} ParseAllSpec(paths: seq<string>, parse: string -> Result<seq<Method>>)
    ensures ParseAll(paths, parse).Ok? <==> forall p :: p in paths ==> parse(p).Ok?
    ensures ParseAll(paths, parse).Ok? ==>
      forall i :: 0 <= i < |paths| ==> ParseAll(paths, parse).value[i] == parse(paths[i]).value
  {
    if paths != [] {
      var init := paths[..|paths| - 1];
      ParseAllSpec(init, parse);
      assert paths == init + [paths[|paths| - 1]];
    }
  }

  lemma {:induction false} ParseAllAppend(p: seq<string>, q: seq<string>,
                                          parse: string -> Result<seq<Method>>)
    requires ParseAll(p + q, parse).Ok?
    ensures ParseAll(p, parse).Ok? && ParseAll(q, parse).Ok?
    ensures ParseAll(p + q, parse).value == ParseAll(p, parse).value + ParseAll(q, parse).value
    decreases |q|
  {
    if q == [] {
      assert p + q == p;
    } else {
      var init := q[..|q| - 1];
      assert (p + q)[..|p + q| - 1] == p + init;
      assert (p + q)[|p + q| - 1] == q[|q| - 1];
      ParseAllAppend(p, init, parse);
      ConcatAssociative(ParseAll(p, parse).value, ParseAll(init, parse).value,
                        [parse(q[|q| - 1]).value]);
    }
  }

  /** `Promise.all` over `createTestSuite` for each path: the suites in path
      order, or the first parse error. */
  function BuildSuites(paths: seq<string>, parse: string -> Result<seq<Method>>): (r: Result<seq<Node>>)
    ensures r.Ok? <==> ParseAll(paths, parse).Ok?
  {
    match ParseAll(paths, parse)
    case Err(e) => Err(e)
    case Ok(parsed) =>
      Ok(seq(|paths|, i requires 0 <= i < |paths| => CreateTestSuite(paths[i], parsed[i])))
  }

  /** On success there is one suite per file, built from that file, in file
      order. */
  lemma BuildSuitesValue(paths: seq<string>, parse: string -> Result<seq<Method>>)
    requires BuildSuites(paths, parse).Ok?
    ensures var suites := BuildSuites(paths, parse).value;
      && |suites| == |paths|
      && forall i :: 0 <= i < |paths| ==>
           parse(paths[i]).Ok? && suites[i] == CreateTestSuite(paths[i], parse(paths[i]).value)
  {
    ParseAllSpec(paths, parse);
  }

  /** Building the suites of `p + q` builds those of `p`, then those of `q`. */
  lemma BuildSuitesAppend(p: seq<string>, q: seq<string>, parse: string -> Result<seq<Method>>)
    requires BuildSuites(p + q, parse).Ok?
    ensures BuildSuites(p, parse).Ok? && BuildSuites(q, parse).Ok?
    ensures BuildSuites(p + q, parse).value == BuildSuites(p, parse).value + BuildSuites(q, parse).value
  {
    ParseAllAppend(p, q, parse);
    ParseAllSpec(p + q, parse);
    ParseAllSpec(p, parse);
    ParseAllSpec(q, parse);
    var sp := BuildSuites(p, parse).value;
    var sq := BuildSuites(q, parse).value;
    var spq := BuildSuites(p + q, parse).value;
    assert |spq| == |sp| + |sq|;
    forall i | 0 <= i < |spq| ensures spq[i] == (sp + sq)[i] {
      if i >= |p| {
        assert (p + q)[i] == q[i - |p|];
      }
    }
  }

  predicate HasChildren(s: Node) {
    s.Suite? && |s.children| > 0
  }

  /** `path.join(dir, name)` for each listed name, in order. */
  function JoinAll(dir: string, names: seq<string>): (r: seq<string>)
    ensures |r| == |names| && forall i :: 0 <= i < |names| ==> r[i] == dir + names[i]
  {
    seq(|names|, i requires 0 <= i < |names| => dir + names[i])
  }

  lemma JoinAllAppend(dir: string, x: seq<string>, y: seq<string>)
    ensures JoinAll(dir, x + y) == JoinAll(dir, x) + JoinAll(dir, y)
  {
  }

  /** The suites of the workspace's procedure directory: one per suite file,
      in listing order, without the suites that hold no test. A listing or
      parser failure fails the whole discovery. */
  function GetUnitTestSuites(ws: Workspace): Result<seq<Node>> {
    match ws.listing
    case Err(e) => Err(e)
    case Ok(names) =>
      var paths := JoinAll(UnitTestDirectory(ws.root), TestProcedures(names));
      match BuildSuites(paths, ws.parse)
      case Err(e) => Err(e)
      case Ok(suites) => Ok(Filter(HasChildren, suites))
  }

  /** Discovery succeeds exactly when the directory can be listed and every
      suite file in it parses. */
  lemma GetUnitTestSuitesOk(ws: Workspace)
    ensures GetUnitTestSuites(ws).Ok? <==>
      && ws.listing.Ok?
      && forall f :: f in ws.listing.value && IsTestProcedure(f) ==>
           ws.parse(UnitTestDirectory(ws.root) + f).Ok?
  {
    if ws.listing.Ok? {
      var dir := UnitTestDirectory(ws.root);
      var files := TestProcedures(ws.listing.value);
      var paths := JoinAll(dir, files);
      ParseAllSpec(paths, ws.parse);
      forall f | f in ws.listing.value && IsTestProcedure(f)
        ensures dir + f in paths
      {
        var j :| 0 <= j < |files| && files[j] == f;
        assert paths[j] == dir + f;
      }
      forall p | p in paths
        ensures exists f :: f in ws.listing.value && IsTestProcedure(f) && p == dir + f
      {
        var j :| 0 <= j < |paths| && paths[j] == p;
        assert files[j] in ws.listing.value && IsTestProcedure(files[j]);
      }
    }
  }

  /** Every discovered suite holds at least one test, only tests, and comes
      from a suite file of the listing, whose name without extension is its
      id. */
  lemma GetUnitTestSuitesShape(ws: Workspace)
    requires GetUnitTestSuites(ws).Ok?
    ensures forall s :: s in GetUnitTestSuites(ws).value ==>
      && s.Suite? && |s.children| > 0
      && (forall c :: c in s.children ==> c.Test?)
      && exists f :: f in ws.listing.value && IsTestProcedure(f)
           && s.id == GetFileNameWithoutExtension(UnitTestDirectory(ws.root) + f)
  {
    var dir := UnitTestDirectory(ws.root);
    var files := TestProcedures(ws.listing.value);
    var paths := JoinAll(dir, files);
    BuildSuitesValue(paths, ws.parse);
    var suites := BuildSuites(paths, ws.parse).value;
    var result := GetUnitTestSuites(ws).value;
    assert result == Filter(HasChildren, suites);
    forall s | s in result
      ensures s.Suite? && |s.children| > 0
      ensures forall c :: c in s.children ==> c.Test?
      ensures exists f :: f in ws.listing.value && IsTestProcedure(f) &&
                          s.id == GetFileNameWithoutExtension(dir + f)
    {
      var i :| 0 <= i < |result| && result[i] == s;
      assert s in suites && HasChildren(s);
      var j :| 0 <= j < |suites| && suites[j] == s;
      assert s == CreateTestSuite(paths[j], ws.parse(paths[j]).value);
      assert paths[j] == dir + files[j];
      assert files[j] in ws.listing.value && IsTestProcedure(files[j]);
    }
  }

  /** Discovery over a listing, once the listing has been read: the suites
      built from the accepted names, without the empty ones. */
  lemma DiscoveryOfListing(root: string, names: seq<string>, parse: string -> Result<seq<Method>>)
    ensures var built := BuildSuites(JoinAll(UnitTestDirectory(root), TestProcedures(names)), parse);
      GetUnitTestSuites(Workspace(root, Ok(names), parse)) ==
        if built.Ok? then Ok(Filter(HasChildren, built.value)) else Err(built.error)
  {
  }

  /** Discovering a listing `a + b` gives the suites of `a` followed by those
      of `b`: suites keep the order of the directory listing. */
  lemma DiscoveryKeepsListingOrder(root: string, a: seq<string>, b: seq<string>,
                                   parse: string -> Result<seq<Method>>)
    requires GetUnitTestSuites(Workspace(root, Ok(a + b), parse)).Ok?
    ensures GetUnitTestSuites(Workspace(root, Ok(a), parse)).Ok?
    ensures GetUnitTestSuites(Workspace(root, Ok(b), parse)).Ok?
    ensures GetUnitTestSuites(Workspace(root, Ok(a + b), parse)).value
         == GetUnitTestSuites(Workspace(root, Ok(a), parse)).value
          + GetUnitTestSuites(Workspace(root, Ok(b), parse)).value
  {
    var dir := UnitTestDirectory(root);
    var ta, tb := TestProcedures(a), TestProcedures(b);
    FilterAppend(IsTestProcedure, a, b);
    assert TestProcedures(a + b) == ta + tb;
    JoinAllAppend(dir, ta, tb);
    var pa, pb := JoinAll(dir, ta), JoinAll(dir, tb);
    DiscoveryOfListing(root, a + b, parse);
    assert BuildSuites(pa + pb, parse).Ok?;
    BuildSuitesAppend(pa, pb, parse);
    DiscoveryOfListing(root, a, parse);
    DiscoveryOfListing(root, b, parse);
    FilterAppend(HasChildren, BuildSuites(pa, parse).value, BuildSuites(pb, parse).value);
  }

  /** A single listed file contributes its suite when it is a suite file
      that holds at least one test, nothing when it is not a suite file or
      holds no test, and fails discovery when it does not parse. */
  lemma DiscoveryOfOneFile(root: string, f: string, parse: string -> Result<seq<Method>>)
    ensures var dir := UnitTestDirectory(root);
      GetUnitTestSuites(Workspace(root, Ok([f]), parse)) ==
        if !IsTestProcedure(f) then Ok([])
        else match parse(dir + f)
          case Err(e) => Err(e)
          case Ok(methods) =>
            Ok(if |TestMethods(methods)| > 0 then [CreateTestSuite(dir + f, methods)] else [])
  {
    var dir := UnitTestDirectory(root);
    assert [f][..0] == [];
    if IsTestProcedure(f) {
      assert TestProcedures([f]) == [f];
      var paths := JoinAll(dir, [f]);
      assert paths == [dir + f];
      assert paths[..0] == [];
      if parse(dir + f).Ok? {
        var methods := parse(dir + f).value;
        assert ParseAll(paths[..0], parse) == Ok([]);
        assert ParseAll(paths, parse) == Ok([] + [methods]);
        var s := CreateTestSuite(dir + f, methods);
        assert BuildSuites(paths, parse).value == [s];
        assert [s][..0] == [];
        assert HasChildren(s) <==> |TestMethods(methods)| > 0;
        assert Filter(HasChildren, [s]) == if HasChildren(s) then [s] else [];
      } else {
        assert ParseAll(paths[..0], parse) == Ok([]);
        assert ParseAll(paths, parse) == Err(parse(dir + f).error);
      }
    }
  }

  /** Of the methods `testA`, `helperB` and `testC`, in that order, the
      test methods are `testA` and `testC`, in that order. */
  lemma TestMethodsExample()
    ensures TestMethods([Method("testA", 3), Method("helperB", 7), Method("testC", 12)])
         == [Method("testA", 3), Method("testC", 12)]
  {
    var a, h, c := Method("testA", 3), Method("helperB", 7), Method("testC", 12);
    ExampleMethodKinds(a, h, c);
    assert Filter(IsTestMethod, [a] + [h]) == [a] by {
      FilterOfOne(IsTestMethod, a);
      FilterOfOne(IsTestMethod, h);
      FilterAppend(IsTestMethod, [a], [h]);
    }
    assert Filter(IsTestMethod, [a] + [h] + [c]) == [a] + [c] by {
      FilterOfOne(IsTestMethod, c);
      FilterAppend(IsTestMethod, [a] + [h], [c]);
    }
    assert [a, h, c] == [a] + [h] + [c];
  }

  lemma ExampleMethodKinds(a: Method, h: Method, c: Method)
    requires a == Method("testA", 3) && h == Method("helperB", 7) && c == Method("testC", 12)
    ensures IsTestMethod(a) && !IsTestMethod(h) && IsTestMethod(c)
  {
    assert a.name[..4] == TestPrefix;
    assert h.name[0] != TestPrefix[0];
    assert c.name[..4] == TestPrefix;
  }

  /** A suite's id depends only on the listed file name, not on the
      directory it is joined to. */
  lemma SuiteIdOfJoin(dir: string, name: string)
    requires |dir| > 0 && dir[|dir| - 1] == '/'
    requires '/' !in name
    ensures GetFileNameWithoutExtension(dir + name) == GetFileNameWithoutExtension(name)
  {
    BasenameOfJoin(dir, name);
    BasenameOfPlainName(name);
  }

  lemma ExampleIsTestProcedure(name: string)
    requires name == "ZTestDemo.PROC"
    ensures IsTestProcedure(name) && '/' !in name
  {
    assert name[..5] == SuitePrefix;
    assert name[|name| - 5..] == ProcedureExtension;
    assert name != RpcProcedureFile by { assert name[5] != RpcProcedureFile[5]; }
    assert forall k :: 0 <= k < |name| ==> name[k] != '/';
  }

  /** The suite file `ZTestDemo.PROC` gives the suite id `ZTestDemo`
      (wherever it is listed, by SuiteIdOfJoin). */
  lemma SuiteIdExample()
    ensures GetFileNameWithoutExtension("ZTestDemo.PROC") == "ZTestDemo"
  {
    var name := "ZTestDemo.PROC";
    ExampleIsTestProcedure(name);
    SuiteIdOfTestProcedure(name);
    assert name[..|name| - 5] == "ZTestDemo";
  }
}

/** Wrappers for absent values and thrown errors, and the few JavaScript
    operations the test adapter relies on: startsWith, endsWith, lastIndexOf,
    path.basename, string concatenation of a possibly undefined value, and
    Array.prototype.filter. */
module Js {

  /** A value that may be `undefined`. */
  datatype Option<+T> = None | Some(value: T)

  /** The outcome of an operation that may throw; `error` is the thrown
      error's message. */
  datatype Result<+T> = Ok(value: T) | Err(error: string)

  /** `s.startsWith(prefix)`, case-sensitive. */
  predicate StartsWith(s: string, prefix: string) {
    |prefix| <= |s| && s[..|prefix|] == prefix
  }

  /** `s.endsWith(suffix)`, case-sensitive. */
  predicate EndsWith(s: string, suffix: string) {
    |suffix| <= |s| && s[|s| - |suffix|..] == suffix
  }

  lemma {:induction false} StartsWithIff(s: string, prefix: string)
    ensures StartsWith(s, prefix) <==> exists rest: string :: s == prefix + rest
  {
    if StartsWith(s, prefix) {
      assert s == prefix + s[|prefix|..];
    }
    if exists rest: string :: s == prefix + rest {
      var rest: string :| s == prefix + rest;
      assert s[..|prefix|] == prefix;
    }
  }

  lemma {:induction false} EndsWithIff(s: string, suffix: string)
    ensures EndsWith(s, suffix) <==> exists front: string :: s == front + suffix
  {
    if EndsWith(s, suffix) {
      assert s == s[..|s| - |suffix|] + suffix;
    }
    if exists front: string :: s == front + suffix {
      var front: string :| s == front + suffix;
      assert s[|front|..] == suffix;
    }
  }

  /** `s.lastIndexOf(c)` for a one-character needle: the last index holding
      `c`, or -1 when `c` does not occur. */
  function LastIndexOf(s: string, c: char): (r: int)
    ensures -1 <= r < |s|
    ensures r >= 0 ==> s[r] == c
    ensures forall k :: r < k < |s| ==> s[k] != c
  {
    if s == [] then -1
    else if s[|s| - 1] == c then |s| - 1
    else LastIndexOf(s[..|s| - 1], c)
  }

  /** `path.basename(p)` on a POSIX path without trailing separators: the
      part after the last '/'. */
  function Basename(p: string): (r: string)
    ensures '/' !in r
    ensures |r| <= |p| && r == p[|p| - |r|..]
    ensures |r| < |p| ==> p[|p| - |r| - 1] == '/'
  {
    p[LastIndexOf(p, '/') + 1..]
  }

  /** Joining a directory path that ends in '/' and a plain file name, then
      taking the basename, gives the file name back. */
  lemma BasenameOfJoin(dir: string, name: string)
    requires |dir| > 0 && dir[|dir| - 1] == '/'
    requires '/' !in name
    ensures Basename(dir + name) == name
  {
    var p := dir + name;
    var i := LastIndexOf(p, '/');
    assert p[|dir| - 1] == '/';
    assert forall k :: |dir| <= k < |p| ==> p[k] == name[k - |dir|];
    assert i == |dir| - 1;
    assert p[i + 1..] == name;
  }

  /** JavaScript's `"" + v`: an absent value prints as "undefined". */
  function ToJsString(v: Option<string>): string {
    match v
    case Some(s) => s
    case None => "undefined"
  }

  /** Concatenation is associative; stated once so that proofs can name
      the regrouping step. */
  lemma ConcatAssociative<T>(a: seq<T>, b: seq<T>, c: seq<T>)
    ensures a + b + c == a + (b + c)
  {
  }

  /** A prefix of `a` is a prefix of `a` extended. */
  lemma PrefixOfExtension<T>(x: seq<T>, a: seq<T>, b: seq<T>)
    requires x <= a
    ensures x <= a + b
  {
    assert (a + b)[..|x|] == a[..|x|];
  }

  /** Prefixes survive putting the same sequence in front. */
  lemma PrefixAfterCommonPart<T>(a: seq<T>, x: seq<T>, y: seq<T>)
    requires x <= y
    ensures a + x <= a + y
  {
    assert (a + y)[..|a + x|] == a + y[..|x|];
  }

  /** `s.filter(p)`: the elements satisfying `p`, in their original order. */
  function Filter<T>(p: T -> bool, s: seq<T>): (r: seq<T>)
    ensures |r| <= |s|
    ensures forall i :: 0 <= i < |r| ==> r[i] in s && p(r[i])
    ensures forall i :: 0 <= i < |s| && p(s[i]) ==> s[i] in r
  {
    if s == [] then []
    else Filter(p, s[..|s| - 1]) + (if p(s[|s| - 1]) then [s[|s| - 1]] else [])
  }

  /** A single element is kept exactly when it satisfies the predicate. */
  lemma FilterOfOne<T>(p: T -> bool, x: T)
    ensures Filter(p, [x]) == if p(x) then [x] else []
  {
    assert [x][..0] == [];
  }

  /** Filtering distributes over concatenation, so filtering keeps order. */
  lemma {:induction false} FilterAppend<T>(p: T -> bool, a: seq<T>, b: seq<T>)
    ensures Filter(p, a + b) == Filter(p, a) + Filter(p, b)
    decreases |b|
  {
    if b == [] {
      assert a + b == a;
    } else {
      var last := b[|b| - 1];
      assert (a + b)[..|a + b| - 1] == a + b[..|b| - 1];
      FilterAppend(p, a, b[..|b| - 1]);
      ConcatAssociative(Filter(p, a), Filter(p, b[..|b| - 1]), if p(last) then [last] else []);
    }
  }
}

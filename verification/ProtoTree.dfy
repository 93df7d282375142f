/**
The module tree of nativelink-proto/gen_lib_rs_tool.py: what the flat list of packages says it must
be, and the nodes that the generator grows in place.
*/
module ProtoTree {
  import opened Options
  import opened ProtoNames
  import opened ProtoText

  // ----- reference: the tree a list of packages stands for -----

  /** Package `m` mentions submodule `x` of `p`. */
  predicate Mentions(m: Package, p: Package, x: string) {
    |p| < |m| && m[..|p|] == p && m[|p|] == x
  }

  /** The submodules of `p`, in the order in which the packages first mention them. */
  function Submodules(ms: seq<Package>, p: Package): seq<string> {
    if ms == [] then []
    else
      var before, m := Submodules(ms[..|ms| - 1], p), ms[|ms| - 1];
      if |p| < |m| && m[..|p|] == p && m[|p|] !in before then before + [m[|p|]] else before
  }

  function FileAt(files: set<Package>, p: Package): Option<string> {
    if p in files then Some(FileName(p)) else None
  }

  /** The tree below `p`, down to `depth` further levels. */
  function TreeOf(ms: seq<Package>, files: set<Package>, p: Package, depth: nat): Tree
    decreases depth, 0
  {
    Tree(FileAt(files, p), if depth == 0 then Empty else ForestOf(ms, files, p, Submodules(ms, p), depth - 1))
  }

  function ForestOf(ms: seq<Package>, files: set<Package>, p: Package, names: seq<string>, depth: nat): Forest
    decreases depth, |names|
  {
    if names == [] then Empty
    else Module(names[0], TreeOf(ms, files, p + [names[0]], depth), ForestOf(ms, files, p, names[1..], depth))
  }

  function Depth(ms: seq<Package>): nat {
    if ms == [] then 0
    else
      var d, n := Depth(ms[..|ms| - 1]), |ms[|ms| - 1]|;
      if n > d then n else d
  }

  lemma {:induction false} DepthBounds(ms: seq<Package>, k: nat)
    requires k < |ms|
    ensures |ms[k]| <= Depth(ms)
  {
    if k < |ms| - 1 { DepthBounds(ms[..|ms| - 1], k); }
  }

  ghost predicate Distinct<T>(s: seq<T>) {
    forall i, j :: 0 <= i < j < |s| ==> s[i] != s[j]
  }

  /** Sibling modules never share a name. */
  lemma {:induction false} SubmodulesAreDistinct(ms: seq<Package>, p: Package)
    ensures Distinct(Submodules(ms, p))
  {
    if ms != [] { SubmodulesAreDistinct(ms[..|ms| - 1], p); }
  }

  lemma {:induction false} SubmodulesFrom(ms: seq<Package>, p: Package, x: string) returns (k: nat)
    requires x in Submodules(ms, p)
    ensures k < |ms| && Mentions(ms[k], p, x)
  {
    if x in Submodules(ms[..|ms| - 1], p) {
      k := SubmodulesFrom(ms[..|ms| - 1], p, x);
    } else {
      k := |ms| - 1;
    }
  }

  lemma {:induction false} MentionedAreSubmodules(ms: seq<Package>, p: Package, k: nat)
    requires k < |ms| && |p| < |ms[k]| && ms[k][..|p|] == p
    ensures ms[k][|p|] in Submodules(ms, p)
  {
    if k < |ms| - 1 { MentionedAreSubmodules(ms[..|ms| - 1], p, k); }
  }

  /** Submodules come in first-mention order: some package mentions the earlier one when no package
      up to it mentions the later one. */
  lemma {:induction false} FirstMentionOrder(ms: seq<Package>, p: Package, i: nat, j: nat) returns (k: nat)
    requires i < j < |Submodules(ms, p)|
    ensures k < |ms| && Mentions(ms[k], p, Submodules(ms, p)[i])
    ensures forall l :: 0 <= l <= k ==> !Mentions(ms[l], p, Submodules(ms, p)[j])
  {
    var before := ms[..|ms| - 1];
    if j < |Submodules(before, p)| {
      k := FirstMentionOrder(before, p, i, j);
    } else {
      var x := Submodules(ms, p)[j];
      k := SubmodulesFrom(before, p, Submodules(ms, p)[i]);
      forall l | 0 <= l <= k ensures !Mentions(ms[l], p, x) {
        if Mentions(ms[l], p, x) { MentionedAreSubmodules(before, p, l); }
      }
    }
  }

  // ----- the tree agrees with the flat set of packages -----

  /** The module at `q` exists: `q` is the root or starts some package. */
  ghost predicate Exists(ms: seq<Package>, q: Package) {
    q == [] || exists k :: 0 <= k < |ms| && |q| <= |ms[k]| && ms[k][..|q|] == q
  }

  lemma SubmoduleIffExists(ms: seq<Package>, p: Package, x: string)
    ensures x in Submodules(ms, p) <==> Exists(ms, p + [x])
  {
    var q := p + [x];
    if x in Submodules(ms, p) {
      var k := SubmodulesFrom(ms, p, x);
      assert ms[k][..|q|] == q;
    }
    if Exists(ms, q) {
      var k :| 0 <= k < |ms| && |q| <= |ms[k]| && ms[k][..|q|] == q;
      assert ms[k][..|p|] == q[..|p|] == p && ms[k][|p|] == q[|p|];
      MentionedAreSubmodules(ms, p, k);
    }
  }

  /** A module nobody mentions has no submodules. */
  lemma NothingBelow(ms: seq<Package>, q: Package)
    requires !Exists(ms, q)
    ensures Submodules(ms, q) == []
  {
    if Submodules(ms, q) != [] {
      SubmoduleIffExists(ms, q, Submodules(ms, q)[0]);
      ExistsAbove(ms, q, [Submodules(ms, q)[0]]);
    }
  }

  /** Mentioning one more part of a package touches the submodules of one module only. */
  lemma MentionOneMore(ms: seq<Package>, parts: Package, i: nat, q: Package)
    requires i < |parts|
    ensures
      var before, x := Submodules(ms + [parts[..i]], q), parts[i];
      Submodules(ms + [parts[..i + 1]], q) == if q == parts[..i] && x !in before then before + [x] else before
    ensures Exists(ms + [parts[..i + 1]], q) <==> Exists(ms + [parts[..i]], q) || q == parts[..i + 1]
  {
    var a, b := parts[..i], parts[..i + 1];
    assert (ms + [a])[..|ms|] == ms && (ms + [b])[..|ms|] == ms;
    assert forall n :: 0 <= n <= i ==> b[..n] == a[..n];
    ExistsLast(ms, a, q);
    ExistsLast(ms, b, q);
    assert b[..i + 1] == b && b[..i] == a;
  }

  lemma ExistsLast(ms: seq<Package>, m: Package, q: Package)
    ensures Exists(ms + [m], q) <==> Exists(ms, q) || (|q| <= |m| && m[..|q|] == q)
  {
    var all := ms + [m];
    if Exists(ms, q) && q != [] {
      var k :| 0 <= k < |ms| && |q| <= |ms[k]| && ms[k][..|q|] == q;
      assert all[k] == ms[k];
    }
    if |q| <= |m| && m[..|q|] == q { assert all[|ms|] == m; }
  }

  lemma MentionNothing(ms: seq<Package>, q: Package)
    ensures Submodules(ms + [[]], q) == Submodules(ms, q)
    ensures Exists(ms + [[]], q) <==> Exists(ms, q)
  {
    assert (ms + [[]])[..|ms|] == ms;
    ExistsLast(ms, [], q);
  }

  function LookupTree(t: Tree, q: Package): Option<Option<string>> {
    if q == [] then Some(t.filename) else LookupForest(t.children, q)
  }

  function LookupForest(f: Forest, q: Package): Option<Option<string>>
    requires q != []
  {
    if f.Empty? then None
    else if f.name == q[0] then LookupTree(f.tree, q[1..])
    else LookupForest(f.next, q)
  }

  lemma {:induction false} LookupTreeOf(ms: seq<Package>, files: set<Package>, p: Package, depth: nat, q: Package)
    requires Exists(ms, p) && forall k :: 0 <= k < |ms| ==> |ms[k]| <= |p| + depth
    ensures LookupTree(TreeOf(ms, files, p, depth), q) == if Exists(ms, p + q) then Some(FileAt(files, p + q)) else None
    decreases depth, 0
  {
    if q == [] {
      assert p + q == p;
    } else {
      var x := q[0];
      assert p + q == p + [x] + q[1..];
      if depth > 0 {
        forall y | y in Submodules(ms, p) ensures Exists(ms, p + [y]) { SubmoduleIffExists(ms, p, y); }
        LookupForestOf(ms, files, p, Submodules(ms, p), depth - 1, q);
        SubmoduleIffExists(ms, p, x);
      }
      if Exists(ms, p + q) { ExistsAbove(ms, p + [x], q[1..]); }
    }
  }

  lemma ExistsAbove(ms: seq<Package>, p: Package, q: Package)
    requires Exists(ms, p + q)
    ensures Exists(ms, p)
  {
    if p != [] {
      var k :| 0 <= k < |ms| && |p + q| <= |ms[k]| && ms[k][..|p + q|] == p + q;
      assert ms[k][..|p|] == (p + q)[..|p|] == p;
    }
  }

  lemma {:induction false} LookupForestOf(ms: seq<Package>, files: set<Package>, p: Package, names: seq<string>, depth: nat, q: Package)
    requires q != [] && forall k :: 0 <= k < |ms| ==> |ms[k]| <= |p| + 1 + depth
    requires forall x :: x in names ==> Exists(ms, p + [x])
    ensures
      LookupForest(ForestOf(ms, files, p, names, depth), q) ==
        if q[0] in names && Exists(ms, p + q) then Some(FileAt(files, p + q)) else None
    decreases depth, |names|
  {
    if names != [] {
      if names[0] == q[0] {
        assert p + [q[0]] + q[1..] == p + q;
        LookupTreeOf(ms, files, p + [q[0]], depth, q[1..]);
      } else {
        LookupForestOf(ms, files, p, names[1..], depth, q);
      }
    }
  }

  /** The whole tree of the packages `ms`, each with its file. */
  ghost function Whole(ms: seq<Package>): Tree {
    TreeOf(ms, set m | m in ms, [], Depth(ms))
  }

  /** The tree holds exactly the modules that start a package, and a module has a file exactly when
      it is a package. Since this does not depend on the order of the packages, two orders give the
      same tree up to the order of siblings. */
  lemma TreeIsThePackageSet(ms: seq<Package>, q: Package)
    ensures LookupTree(Whole(ms), q) == if Exists(ms, q) then Some(if q in ms then Some(FileName(q)) else None) else None
  {
    forall k | 0 <= k < |ms| ensures |ms[k]| <= Depth(ms) { DepthBounds(ms, k); }
    LookupTreeOf(ms, set m | m in ms, [], Depth(ms), q);
    assert [] + q == q;
  }

  lemma OrderOnlyMovesSiblings(ms: seq<Package>, ns: seq<Package>, q: Package)
    requires multiset(ms) == multiset(ns)
    ensures LookupTree(Whole(ms), q) == LookupTree(Whole(ns), q)
    ensures multiset(Submodules(ms, q)) == multiset(Submodules(ns, q))
  {
    SameExists(ms, ns, q);
    SameExists(ns, ms, q);
    TreeIsThePackageSet(ms, q);
    TreeIsThePackageSet(ns, q);
    assert q in ms <==> q in multiset(ms);
    assert q in ns <==> q in multiset(ns);
    forall x ensures x in Submodules(ms, q) <==> x in Submodules(ns, q) {
      SubmoduleIffExists(ms, q, x);
      SubmoduleIffExists(ns, q, x);
      SameExists(ms, ns, q + [x]);
      SameExists(ns, ms, q + [x]);
    }
    SubmodulesAreDistinct(ms, q);
    SubmodulesAreDistinct(ns, q);
    SameDistinctElements(Submodules(ms, q), Submodules(ns, q));
  }

  lemma SameExists(ms: seq<Package>, ns: seq<Package>, q: Package)
    requires multiset(ms) == multiset(ns)
    ensures Exists(ms, q) ==> Exists(ns, q)
  {
    if q != [] && Exists(ms, q) {
      var k :| 0 <= k < |ms| && |q| <= |ms[k]| && ms[k][..|q|] == q;
      assert ms[k] in multiset(ns);
      var l :| 0 <= l < |ns| && ns[l] == ms[k];
    }
  }

  lemma {:induction false} DistinctCount<T>(s: seq<T>, x: T)
    requires Distinct(s)
    ensures multiset(s)[x] == if x in s then 1 else 0
  {
    if s != [] {
      assert s == [s[0]] + s[1..];
      DistinctCount(s[1..], x);
    }
  }

  lemma SameDistinctElements<T>(a: seq<T>, b: seq<T>)
    requires Distinct(a) && Distinct(b) && forall x :: x in a <==> x in b
    ensures multiset(a) == multiset(b)
  {
    forall x ensures multiset(a)[x] == multiset(b)[x] {
      DistinctCount(a, x);
      DistinctCount(b, x);
    }
  }

  // ----- one include per package -----

  ghost predicate Below(p: Package, q: Package) {
    |p| <= |q| && q[..|p|] == p
  }

  lemma {:induction false} FilesOfTreeOf(ms: seq<Package>, files: set<Package>, p: Package, depth: nat, x: Found)
    requires forall q :: q in files ==> q in ms
    requires forall k :: 0 <= k < |ms| ==> |ms[k]| <= |p| + depth
    ensures
      x in FilesOfTree(TreeOf(ms, files, p, depth), p) <==>
      x.stack in files && Below(p, x.stack) && x.filename == FileName(x.stack)
    decreases depth, 0
  {
    if depth > 0 {
      FilesOfForestOf(ms, files, p, Submodules(ms, p), depth - 1, x);
    }
    if x.stack in files && Below(p, x.stack) && x.stack != p {
      var k :| 0 <= k < |ms| && ms[k] == x.stack;
      assert |p| != |x.stack|;
      MentionedAreSubmodules(ms, p, k);
    }
  }

  lemma {:induction false} FilesOfForestOf(ms: seq<Package>, files: set<Package>, p: Package, names: seq<string>, depth: nat, x: Found)
    requires forall q :: q in files ==> q in ms
    requires forall k :: 0 <= k < |ms| ==> |ms[k]| <= |p| + 1 + depth
    ensures
      x in FilesOfForest(ForestOf(ms, files, p, names, depth), p) <==>
      x.stack in files && Below(p, x.stack) && |p| < |x.stack| && x.stack[|p|] in names && x.filename == FileName(x.stack)
    decreases depth, |names|
  {
    if names != [] {
      FilesOfTreeOf(ms, files, p + [names[0]], depth, x);
      FilesOfForestOf(ms, files, p, names[1..], depth, x);
      BelowChild(p, names[0], x.stack);
    }
  }

  lemma BelowChild(p: Package, name: string, q: Package)
    ensures Below(p + [name], q) <==> Below(p, q) && |p| < |q| && q[|p|] == name
  {
    if Below(p + [name], q) {
      assert q[..|p|] == q[..|p| + 1][..|p|] == (p + [name])[..|p|] == p;
      assert q[|p|] == q[..|p| + 1][|p|];
    }
    if Below(p, q) && |p| < |q| && q[|p|] == name {
      assert q[..|p| + 1] == q[..|p|] + [q[|p|]];
    }
  }

  lemma DistinctConcat<T>(a: seq<T>, b: seq<T>)
    requires Distinct(a) && Distinct(b) && forall i :: 0 <= i < |a| ==> a[i] !in b
    ensures Distinct(a + b)
  {
  }

  lemma {:induction false} TreeFilesAreDistinct(ms: seq<Package>, files: set<Package>, p: Package, depth: nat)
    requires forall q :: q in files ==> q in ms
    requires forall k :: 0 <= k < |ms| ==> |ms[k]| <= |p| + depth
    ensures Distinct(FilesOfTree(TreeOf(ms, files, p, depth), p))
    decreases depth, 0
  {
    if depth > 0 {
      var names := Submodules(ms, p);
      SubmodulesAreDistinct(ms, p);
      ForestFilesAreDistinct(ms, files, p, names, depth - 1);
      if p in files {
        var own := Found(p, FileName(p));
        FilesOfForestOf(ms, files, p, names, depth - 1, own);
        DistinctConcat([own], FilesOfForest(ForestOf(ms, files, p, names, depth - 1), p));
      }
    }
  }

  lemma {:induction false} ForestFilesAreDistinct(ms: seq<Package>, files: set<Package>, p: Package, names: seq<string>, depth: nat)
    requires forall q :: q in files ==> q in ms
    requires forall k :: 0 <= k < |ms| ==> |ms[k]| <= |p| + 1 + depth
    requires Distinct(names)
    ensures Distinct(FilesOfForest(ForestOf(ms, files, p, names, depth), p))
    decreases depth, |names|
  {
    if names != [] {
      var here := FilesOfTree(TreeOf(ms, files, p + [names[0]], depth), p + [names[0]]);
      var rest := FilesOfForest(ForestOf(ms, files, p, names[1..], depth), p);
      TreeFilesAreDistinct(ms, files, p + [names[0]], depth);
      ForestFilesAreDistinct(ms, files, p, names[1..], depth);
      forall i | 0 <= i < |here| ensures here[i] !in rest {
        FilesOfTreeOf(ms, files, p + [names[0]], depth, here[i]);
        FilesOfForestOf(ms, files, p, names[1..], depth, here[i]);
        BelowChild(p, names[0], here[i].stack);
      }
      DistinctConcat(here, rest);
    }
  }

  /** The include that stands for a package. */
  function IncludeOf(p: Package): Found {
    Found(p, FileName(p))
  }

  /** The tree of distinct packages includes each file exactly once, below its package's modules. */
  lemma OneIncludePerPackage(ms: seq<Package>)
    requires Distinct(ms)
    ensures multiset(FilesOfTree(Whole(ms), [])) == multiset(seq(|ms|, k requires 0 <= k < |ms| => IncludeOf(ms[k])))
  {
    var files := set m | m in ms;
    var found, expected := FilesOfTree(Whole(ms), []), seq(|ms|, k requires 0 <= k < |ms| => IncludeOf(ms[k]));
    forall k | 0 <= k < |ms| ensures |ms[k]| <= Depth(ms) { DepthBounds(ms, k); }
    TreeFilesAreDistinct(ms, files, [], Depth(ms));
    forall x ensures x in found <==> x in expected {
      FilesOfTreeOf(ms, files, [], Depth(ms), x);
      if x.stack in ms && x.filename == FileName(x.stack) {
        var k :| 0 <= k < |ms| && ms[k] == x.stack;
        assert expected[k] == x;
      }
    }
    SameDistinctElements(found, expected);
  }
}

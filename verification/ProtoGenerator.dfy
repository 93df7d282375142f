/**
The generator of nativelink-proto/gen_lib_rs_tool.py: nodes grown in place by a cursor that follows
the parts of each package, then printed by a recursive walk.
*/
module ProtoGenerator {
  import opened Options
  import opened SeqLemmas
  import opened Splitting
  import opened ProtoNames
  import opened ProtoText
  import opened ProtoTree

  /** A node: a dictionary of children that remembers insertion order, and a file name. */
  class Node {
    var order: seq<string>
    var children: map<string, Node>
    var filename: Option<string>

    constructor ()
      ensures order == [] && children == map[] && filename == None
    {
      order, children, filename := [], map[], None;
    }

    /** A new child, last in order. */
    method Attach(part: string) returns (node: Node)
      modifies `order, `children
      ensures order == old(order) + [part] && children == old(children)[part := node]
      ensures fresh(node) && node.order == [] && node.children == map[] && node.filename == None
    {
      node := new Node();
      children := children[part := node];
      order := order + [part];
    }
  }

  // ----- the nodes as values -----

  datatype Cell = Cell(order: seq<string>, children: map<string, Node>, filename: Option<string>)

  type Places = map<Package, Node>
  type Cells = map<Package, Cell>

  const NEW := Cell([], map[], None)

  /** The nodes form a tree: each stands for one package, and leads to that package's submodules. */
  ghost predicate WellLinked(at: Places, c: Cells) {
    && at.Keys == c.Keys && [] in at
    && (forall p, q :: p in at && q in at && at[p] == at[q] ==> p == q)
    && (forall p, x :: p in at ==> Linked(at, c, p, x))
    && (forall p: Package, x: string :: p + [x] in at ==> p in at)
  }

  ghost predicate Linked(at: Places, c: Cells, p: Package, x: string)
    requires p in c
  {
    && (x in c[p].order <==> x in c[p].children)
    && (x in c[p].children <==> p + [x] in at)
    && (x in c[p].children ==> c[p].children[x] == at[p + [x]])
  }

  /** The cells are those of the packages `ms`, and the packages `files` have their files. */
  ghost predicate Flat(c: Cells, ms: seq<Package>, files: set<Package>) {
    forall p :: FlatAt(c, ms, files, p)
  }

  ghost predicate FlatAt(c: Cells, ms: seq<Package>, files: set<Package>, p: Package) {
    && (p in c <==> Exists(ms, p))
    && (p in c ==> c[p].order == Submodules(ms, p) && c[p].filename == FileAt(files, p))
  }

  /** The packages with a file are among those mentioned. */
  ghost predicate Owned(ms: seq<Package>, files: set<Package>) {
    forall q :: q in files ==> Exists(ms, q)
  }

  /** The cells once `node` is the new submodule `x` of `p`. */
  ghost function Grown(c: Cells, p: Package, x: string, node: Node): Cells
    requires p in c
  {
    var d: Cells := c[p := Cell(c[p].order + [x], c[p].children[x := node], c[p].filename)];
    d[p + [x] := NEW]
  }

  lemma IsGrown(d: Cells, c: Cells, p: Package, x: string, q: Package, node: Node)
    requires p in c && q == p + [x] && d.Keys == c.Keys + {q} && p != q && d[q] == NEW
    requires d[p] == Cell(c[p].order + [x], c[p].children[x := node], c[p].filename)
    requires forall r :: r in c && r != p && r != q ==> d[r] == c[r]
    ensures d == Grown(c, p, x, node)
  {
  }

  lemma NotThere(at: Places, c: Cells, p: Package, x: string)
    requires WellLinked(at, c) && p in at && x !in c[p].children
    ensures p + [x] !in at && p + [x] != p
    ensures forall q :: q in at && q != p ==> at[q] != at[p]
  {
    assert Linked(at, c, p, x);
  }

  lemma GrownLinked(at: Places, c: Cells, p: Package, x: string, node: Node)
    requires WellLinked(at, c) && p in at && x !in c[p].children && forall q :: q in at ==> at[q] != node
    ensures WellLinked(at[p + [x] := node], Grown(c, p, x, node))
  {
    var at2, d := at[p + [x] := node], Grown(c, p, x, node);
    assert Linked(at, c, p, x);
    forall q, y | q in at2 ensures Linked(at2, d, q, y) {
      SnocInjective(q, y, p, x);
      if q == p + [x] {
        assert (q + [y])[..|q|] == q;
      } else {
        assert Linked(at, c, q, y);
      }
    }
    forall q: Package, y: string | q + [y] in at2 ensures q in at2 { SnocInjective(q, y, p, x); }
  }

  /** Adding part `i` of a package as a submodule is mentioning it. */
  lemma GrownFlat(c: Cells, ms: seq<Package>, files: set<Package>, parts: Package, i: nat, node: Node)
    requires i < |parts| && Flat(c, ms + [parts[..i]], files) && Owned(ms, files) && parts[..i] in c
    requires parts[..i + 1] !in c
    ensures Flat(Grown(c, parts[..i], parts[i], node), ms + [parts[..i + 1]], files)
  {
    var d, now := Grown(c, parts[..i], parts[i], node), parts[..i + 1];
    forall q ensures FlatAt(d, ms + [now], files, q) {
      assert FlatAt(c, ms + [parts[..i]], files, q) && FlatAt(c, ms + [parts[..i]], files, now);
      GrownFlatAt(c, d, ms, files, parts, i, node, q);
    }
  }

  lemma GrownFlatAt(c: Cells, d: Cells, ms: seq<Package>, files: set<Package>, parts: Package, i: nat, node: Node, q: Package)
    requires i < |parts| && Owned(ms, files) && parts[..i] in c && parts[..i + 1] !in c
    requires FlatAt(c, ms + [parts[..i]], files, q) && FlatAt(c, ms + [parts[..i]], files, parts[..i + 1])
    requires d == Grown(c, parts[..i], parts[i], node)
    ensures FlatAt(d, ms + [parts[..i + 1]], files, q)
  {
    var p, x, now := parts[..i], parts[i], parts[..i + 1];
    TakeSnoc(parts, i);
    SubmoduleIffExists(ms + [p], p, x);
    NothingBelow(ms + [p], now);
    ExistsLast(ms, p, now);
    MentionOneMore(ms, parts, i, q);
  }

  /** A part that is there already is not mentioned anew. */
  lemma KeptFlat(c: Cells, ms: seq<Package>, files: set<Package>, parts: Package, i: nat)
    requires i < |parts| && Flat(c, ms + [parts[..i]], files) && parts[..i + 1] in c
    ensures Flat(c, ms + [parts[..i + 1]], files)
  {
    var p, now := parts[..i], parts[..i + 1];
    assert FlatAt(c, ms + [p], files, now);
    TakeSnoc(parts, i);
    SubmoduleIffExists(ms + [p], p, parts[i]);
    forall q ensures FlatAt(c, ms + [now], files, q) {
      assert FlatAt(c, ms + [p], files, q);
      MentionOneMore(ms, parts, i, q);
    }
  }

  lemma StartFlat(c: Cells, ms: seq<Package>, files: set<Package>)
    requires Flat(c, ms, files)
    ensures Flat(c, ms + [[]], files)
  {
    forall q ensures FlatAt(c, ms + [[]], files, q) {
      assert FlatAt(c, ms, files, q);
      MentionNothing(ms, q);
    }
  }

  lemma SetFileFlat(c: Cells, ms: seq<Package>, files: set<Package>, p: Package)
    requires Flat(c, ms, files) && p in c
    ensures Flat(c[p := c[p].(filename := Some(FileName(p)))], ms, files + {p})
  {
    var d := c[p := c[p].(filename := Some(FileName(p)))];
    forall q ensures FlatAt(d, ms, files + {p}, q) { assert FlatAt(c, ms, files, q); }
  }

  // ----- the nodes in memory -----

  class ModuleTree {
    const root: Node
    ghost var at: Places
    ghost var nodes: set<Node>

    ghost predicate Placed()
      reads this
    {
      forall p :: p in at ==> at[p] in nodes
    }

    ghost function Value(): Cells
      requires Placed()
      reads this, nodes
    {
      map p | p in at :: Cell(at[p].order, at[p].children, at[p].filename)
    }

    ghost predicate Valid()
      reads this, nodes
    {
      Placed() && WellLinked(at, Value()) && at[[]] == root
    }

    constructor ()
      ensures Valid() && Flat(Value(), [], {}) && fresh(nodes)
    {
      root := new Node();
      at := map[[] := root];
      nodes := {root};
      new;
      forall q ensures FlatAt(Value(), [], {}, q) { }
    }

    /** A new node, below the node of `p` and no other. */
    method Link(ghost p: Package, ghost q: Package, cur: Node, part: string) returns (node: Node)
      requires Placed() && p in at && at[p] == cur && q == p + [part] && q !in at
      requires forall r :: r in at && r != p ==> at[r] != cur
      modifies `at, `nodes, cur
      ensures Placed() && fresh(nodes - old(nodes)) && fresh(node)
      ensures at == old(at)[q := node] && Value() == Grown(old(Value()), p, part, node)
    {
      ghost var c := Value();
      node := cur.Attach(part);
      at, nodes := at[q := node], nodes + {node};
      IsGrown(Value(), c, p, part, q, node);
    }

    /** Adds a submodule that is missing. */
    method AddChild(ghost p: Package, cur: Node, part: string) returns (node: Node)
      requires Valid() && p in at && at[p] == cur && part !in cur.children
      modifies `at, `nodes, cur
      ensures Valid() && fresh(nodes - old(nodes))
      ensures at == old(at)[p + [part] := node] && Value() == Grown(old(Value()), p, part, node)
    {
      ghost var c, was := Value(), at;
      NotThere(at, c, p, part);
      node := Link(p, p + [part], cur, part);
      GrownLinked(was, c, p, part, node);
    }

    /** One step of the cursor: adds the submodule if it is missing, and moves to it. */
    method Descend(parts: Package, i: nat, cur: Node, ghost ms: seq<Package>, ghost files: set<Package>) returns (next: Node)
      requires i < |parts| && Valid() && Flat(Value(), ms + [parts[..i]], files) && Owned(ms, files)
      requires parts[..i] in at && at[parts[..i]] == cur
      modifies `at, `nodes, cur
      ensures Valid() && Flat(Value(), ms + [parts[..i + 1]], files)
      ensures parts[..i + 1] in at && at[parts[..i + 1]] == next
      ensures fresh(nodes - old(nodes))
    {
      ghost var p, c := parts[..i], Value();
      TakeSnoc(parts, i);
      assert Linked(at, c, p, parts[i]);
      if parts[i] !in cur.children {
        next := AddChild(p, cur, parts[i]);
        GrownFlat(c, ms, files, parts, i, next);
      } else {
        KeptFlat(c, ms, files, parts, i);
        next := cur.children[parts[i]];
      }
    }

    /** Moves the cursor along all parts of a package. */
    method Reach(parts: Package, ghost ms: seq<Package>, ghost files: set<Package>) returns (cur: Node)
      requires Valid() && Flat(Value(), ms, files) && Owned(ms, files)
      modifies `at, `nodes, nodes
      ensures Valid() && Flat(Value(), ms + [parts], files)
      ensures parts in at && at[parts] == cur && cur in nodes
      ensures fresh(nodes - old(nodes))
    {
      cur := root;
      StartFlat(Value(), ms, files);
      assert parts[..0] == [];
      for i := 0 to |parts|
        invariant Valid() && Flat(Value(), ms + [parts[..i]], files)
        invariant parts[..i] in at && at[parts[..i]] == cur
        invariant fresh(nodes - old(nodes))
      {
        cur := Descend(parts, i, cur, ms, files);
      }
      assert parts[..|parts|] == parts;
    }

    /** Adds a package unless it has a file already. */
    method Insert(parts: Package, ghost ms: seq<Package>, ghost files: set<Package>) returns (ok: bool)
      requires Valid() && Flat(Value(), ms, files) && Owned(ms, files)
      modifies `at, `nodes, nodes
      ensures Valid() && (ok <==> parts !in files)
      ensures ok ==> Flat(Value(), ms + [parts], files + {parts})
      ensures fresh(nodes - old(nodes))
    {
      var cur := Reach(parts, ms, files);
      ghost var c := Value();
      assert FlatAt(c, ms + [parts], files, parts);
      ok := cur.filename.None?;
      if ok {
        SetFile(parts, cur, Join(parts, '.') + SUFFIX);
        SetFileFlat(c, ms + [parts], files, parts);
      }
    }

    method SetFile(ghost p: Package, cur: Node, filename: string)
      requires Valid() && p in at && at[p] == cur
      modifies cur`filename
      ensures Valid() && Value() == old(Value())[p := old(Value())[p].(filename := Some(filename))]
    {
      cur.filename := Some(filename);
      assert Value() == old(Value())[p := old(Value())[p].(filename := Some(filename))];
      forall q, x | q in at ensures Linked(at, Value(), q, x) { assert Linked(at, old(Value()), q, x); }
    }
  }

  // ----- printing -----

  /** The nodes at their places are as the cells say. */
  ghost predicate Shows(at: Places, c: Cells)
    reads at.Values
  {
    at.Keys == c.Keys && forall p :: p in at ==> CellOf(at[p]) == c[p]
  }

  ghost function CellOf(node: Node): Cell
    reads node
  {
    Cell(node.order, node.children, node.filename)
  }

  /** A tree of the packages `ms`, in which `node` is the node of `p`. */
  ghost predicate Stands(at: Places, c: Cells, node: Node, p: Package, ms: seq<Package>, files: set<Package>) {
    WellLinked(at, c) && Flat(c, ms, files) && p in at && at[p] == node
  }

  lemma CellIs(at: Places, c: Cells, node: Node, p: Package, ms: seq<Package>, files: set<Package>)
    requires Stands(at, c, node, p, ms, files)
    ensures c[p].order == Submodules(ms, p) && c[p].filename == FileAt(files, p)
  {
    assert FlatAt(c, ms, files, p);
  }

  lemma ChildStands(at: Places, c: Cells, node: Node, p: Package, q: Package, name: string, ms: seq<Package>, files: set<Package>)
    requires Stands(at, c, node, p, ms, files) && name in c[p].order && q == p + [name]
    ensures name in c[p].children && Stands(at, c, c[p].children[name], q, ms, files)
  {
    assert Linked(at, c, p, name);
  }

  /** The lines printed for the module `node`, which stands for package `p`. */
  method PrintPackagePartToMod(node: Node, indents: nat, ghost at: Places, ghost c: Cells,
      ghost p: Package, ghost ms: seq<Package>, ghost files: set<Package>, ghost depth: nat) returns (lines: seq<string>)
    requires Shows(at, c) && Stands(at, c, node, p, ms, files) && Within(ms, |p| + depth)
    ensures lines == ModuleLines(ms, files, p, depth, indents)
    decreases depth, 2
  {
    CellIs(at, c, node, p, ms, files);
    LeafHasNone(ms, p, depth);
    var inner := PrintChildren(node, node.order, indents, at, c, p, ms, files, depth);
    lines := RenderFile(node.filename, indents) + inner;
    ModuleLinesAre(ms, files, p, depth, indents);
    AllChildren(ms, files, p, node.order, depth, indents);
  }

  /** One child: its lines, between its opening and its closing line. */
  method PrintNext(before: seq<string>, node: Node, names: seq<string>, i: nat, indents: nat, ghost at: Places, ghost c: Cells,
      ghost p: Package, ghost ms: seq<Package>, ghost files: set<Package>, ghost depth: nat) returns (lines: seq<string>)
    requires Shows(at, c) && Stands(at, c, node, p, ms, files) && names == c[p].order
    requires i < |names| && Within(ms, |p| + depth) && depth > 0
    requires before == FirstChildren(ms, files, p, names, i, depth, indents)
    ensures lines == FirstChildren(ms, files, p, names, i + 1, depth, indents)
    decreases depth, 0
  {
    var name := names[i];
    ghost var q, below := p + [name], depth - 1;
    ChildStands(at, c, node, p, q, name, ms, files);
    var inner := PrintPackagePartToMod(node.children[name], indents + 1, at, c, q, ms, files, below);
    lines := before + Block(name, inner, indents);
  }

  /** The loop over the children. */
  method PrintChildren(node: Node, names: seq<string>, indents: nat, ghost at: Places, ghost c: Cells,
      ghost p: Package, ghost ms: seq<Package>, ghost files: set<Package>, ghost depth: nat) returns (lines: seq<string>)
    requires Shows(at, c) && Stands(at, c, node, p, ms, files) && names == c[p].order
    requires Within(ms, |p| + depth) && (names != [] ==> depth > 0)
    ensures lines == FirstChildren(ms, files, p, names, |names|, depth, indents)
    decreases depth, 1
  {
    lines := [];
    for i := 0 to |names|
      invariant Shows(at, c)
      invariant lines == FirstChildren(ms, files, p, names, i, depth, indents)
    {
      lines := PrintNext(lines, node, names, i, indents, at, c, p, ms, files, depth);
    }
  }

  ghost predicate Within(ms: seq<Package>, depth: nat) {
    forall k :: 0 <= k < |ms| ==> |ms[k]| <= depth
  }

  lemma LeafHasNone(ms: seq<Package>, p: Package, depth: nat)
    requires Within(ms, |p| + depth)
    ensures Submodules(ms, p) != [] ==> depth > 0
  {
    if Submodules(ms, p) != [] { var k := SubmodulesFrom(ms, p, Submodules(ms, p)[0]); }
  }

  /** The lines of the first `n` children of `p`. */
  ghost function FirstChildren(ms: seq<Package>, files: set<Package>, p: Package, names: seq<string>, n: nat,
      depth: nat, indents: nat): seq<string>
    requires n <= |names| && (names != [] ==> depth > 0)
  {
    if n == 0 then []
    else
      FirstChildren(ms, files, p, names, n - 1, depth, indents)
      + ChildLines(ms, files, p, names[n - 1], depth - 1, indents)
  }

  lemma {:induction false} ChildrenSoFar(ms: seq<Package>, files: set<Package>, p: Package, names: seq<string>, n: nat,
      depth: nat, indents: nat)
    requires n <= |names| && (names != [] ==> depth > 0)
    ensures FirstChildren(ms, files, p, names, n, depth, indents) + Remaining(ms, files, p, names[n..], depth, indents)
      == Remaining(ms, files, p, names, depth, indents)
  {
    if n == 0 {
      assert names[0..] == names;
    } else {
      ChildrenSoFar(ms, files, p, names, n - 1, depth, indents);
      NextChild(ms, files, p, names, n - 1, depth, indents);
      Move(
        Remaining(ms, files, p, names, depth, indents),
        FirstChildren(ms, files, p, names, n - 1, depth, indents),
        ChildLines(ms, files, p, names[n - 1], depth - 1, indents),
        Remaining(ms, files, p, names[n - 1..], depth, indents),
        Remaining(ms, files, p, names[n..], depth, indents));
    }
  }

  lemma Move(all: seq<string>, done: seq<string>, block: seq<string>, next: seq<string>, rest: seq<string>)
    requires all == done + next && next == block + rest
    ensures done + block + rest == all
  {
  }

  lemma NextChild(ms: seq<Package>, files: set<Package>, p: Package, names: seq<string>, i: nat, depth: nat, indents: nat)
    requires i < |names| && depth > 0
    ensures Remaining(ms, files, p, names[i..], depth, indents)
      == ChildLines(ms, files, p, names[i], depth - 1, indents) + Remaining(ms, files, p, names[i + 1..], depth, indents)
  {
    assert names[i..][1..] == names[i + 1..];
  }

  lemma AllChildren(ms: seq<Package>, files: set<Package>, p: Package, names: seq<string>, depth: nat, indents: nat)
    requires names != [] ==> depth > 0
    ensures FirstChildren(ms, files, p, names, |names|, depth, indents) == Remaining(ms, files, p, names, depth, indents)
  {
    ChildrenSoFar(ms, files, p, names, |names|, depth, indents);
    assert names[|names|..] == [];
  }

  /** The lines of the child `name` of `p`. */
  ghost function ChildLines(ms: seq<Package>, files: set<Package>, p: Package, name: string, below: nat, indents: nat): seq<string> {
    Block(name, ModuleLines(ms, files, p + [name], below, indents + 1), indents)
  }

  /** The lines of the module at `p`. */
  ghost function ModuleLines(ms: seq<Package>, files: set<Package>, p: Package, depth: nat, indents: nat): seq<string> {
    RenderTree(TreeOf(ms, files, p, depth), indents)
  }

  lemma ModuleLinesAre(ms: seq<Package>, files: set<Package>, p: Package, depth: nat, indents: nat)
    ensures
      ModuleLines(ms, files, p, depth, indents) ==
      RenderFile(FileAt(files, p), indents) + Remaining(ms, files, p, Submodules(ms, p), depth, indents)
  {
    assert RenderForest(TreeOf(ms, files, p, depth).children, indents) == Remaining(ms, files, p, Submodules(ms, p), depth, indents);
  }

  /** What is still to be printed of the children of `p`. */
  ghost function Remaining(ms: seq<Package>, files: set<Package>, p: Package, names: seq<string>, depth: nat, indents: nat): seq<string> {
    if depth == 0 then [] else RenderForest(ForestOf(ms, files, p, names, depth - 1), indents)
  }

  // ----- the whole generator -----

  datatype Outcome = Printed(text: string) | BadSuffix(index: nat) | DuplicatePackage(index: nat)

  function Packages(files: seq<string>): seq<Package> {
    seq(|files|, k requires 0 <= k < |files| => PackageParts(files[k]))
  }

  ghost predicate AllAccepted(files: seq<string>) {
    forall k :: 0 <= k < |files| ==> Accepted(files[k])
  }

  ghost function PackageSet(files: seq<string>): set<Package> {
    set m | m in Packages(files)
  }

  lemma PackageTaken(files: seq<string>, path: string)
    requires AllAccepted(files) && Accepted(path)
    ensures PackageParts(path) in PackageSet(files) <==> path in files
  {
    if path in files {
      var k :| 0 <= k < |files| && files[k] == path;
      assert Packages(files)[k] == PackageParts(path);
    }
    if PackageParts(path) in PackageSet(files) {
      var k :| 0 <= k < |files| && Packages(files)[k] == PackageParts(path);
      PackagesAreInjective(files[k], path);
    }
  }

  lemma PackagesOfPrefix(files: seq<string>, n: nat)
    requires n < |files|
    ensures files[..n + 1] == files[..n] + [files[n]]
    ensures Packages(files[..n + 1]) == Packages(files[..n]) + [PackageParts(files[n])]
    ensures PackageSet(files[..n + 1]) == PackageSet(files[..n]) + {PackageParts(files[n])}
  {
    assert Packages(files[..n + 1]) == Packages(files[..n]) + [PackageParts(files[n])];
  }

  lemma PackagesAreOwned(files: seq<string>)
    ensures Owned(Packages(files), PackageSet(files))
  {
    forall q | q in PackageSet(files) ensures Exists(Packages(files), q) {
      var k :| 0 <= k < |files| && Packages(files)[k] == q;
      assert Packages(files)[k][..|q|] == q;
    }
  }

  /** The tree holds the first `n` files, which are distinct. */
  ghost predicate Grew(tree: ModuleTree, files: seq<string>)
    reads tree, tree.nodes
  {
    && AllAccepted(files) && Distinct(files)
    && tree.Valid() && Flat(tree.Value(), Packages(files), PackageSet(files))
  }

  /** One turn of the loop over the files. */
  method AddFile(tree: ModuleTree, files: seq<string>, n: nat) returns (ok: bool)
    requires n < |files| && Accepted(files[n]) && Grew(tree, files[..n])
    modifies tree`at, tree`nodes, tree.nodes
    ensures ok <==> files[n] !in files[..n]
    ensures ok ==> Grew(tree, files[..n + 1])
    ensures fresh(tree.nodes - old(tree.nodes))
  {
    ghost var before := files[..n];
    PackageTaken(before, files[n]);
    PackagesOfPrefix(files, n);
    PackagesAreOwned(before);
    if files[n] !in before { OneFileMore(files, n); }
    ok := tree.Insert(PackageParts(files[n]), Packages(before), PackageSet(before));
  }

  lemma OneFileMore(files: seq<string>, n: nat)
    requires n < |files| && Accepted(files[n]) && files[n] !in files[..n]
    requires AllAccepted(files[..n]) && Distinct(files[..n])
    ensures AllAccepted(files[..n + 1]) && Distinct(files[..n + 1])
  {
    assert files[..n + 1] == files[..n] + [files[n]];
  }

  method EmptyTree() returns (tree: ModuleTree)
    ensures fresh(tree) && fresh(tree.nodes) && Grew(tree, [])
  {
    tree := new ModuleTree();
    assert Packages([]) == [] && PackageSet([]) == {};
  }

  method PrintTree(tree: ModuleTree, files: seq<string>) returns (text: string)
    requires Grew(tree, files)
    ensures text == Unlines(RenderTree(Whole(Packages(files)), 0))
  {
    ghost var ms := Packages(files);
    forall k | 0 <= k < |ms| ensures |ms[k]| <= Depth(ms) { DepthBounds(ms, k); }
    var lines := PrintPackagePartToMod(tree.root, 0, tree.at, tree.Value(), [], ms, PackageSet(files), Depth(ms));
    text := Unlines(lines);
  }

  /** The generator succeeds exactly on lists of distinct `.pb.rs` files, and otherwise stops at the
      first offending one. */
  method Generate(files: seq<string>) returns (r: Outcome)
    ensures r.Printed? <==> AllAccepted(files) && Distinct(files)
    ensures r.Printed? ==> r.text == Unlines(RenderTree(Whole(Packages(files)), 0))
    ensures !r.Printed? ==> r.index < |files| && AllAccepted(files[..r.index]) && Distinct(files[..r.index])
    ensures r.BadSuffix? ==> !Accepted(files[r.index])
    ensures r.DuplicatePackage? ==> Accepted(files[r.index]) && files[r.index] in files[..r.index]
  {
    var tree := EmptyTree();
    assert files[..0] == [];
    for n := 0 to |files|
      invariant fresh(tree) && fresh(tree.nodes)
      invariant Grew(tree, files[..n])
    {
      if !Accepted(files[n]) { return BadSuffix(n); }
      var ok := AddFile(tree, files, n);
      if !ok { return DuplicatePackage(n); }
    }
    assert files[..|files|] == files;
    var text := PrintTree(tree, files);
    r := Printed(text);
  }

  // ----- from the list of files to the printed text -----

  ghost predicate NoBreaks(lines: seq<string>) {
    forall k :: 0 <= k < |lines| ==> '\n' !in lines[k]
  }

  lemma {:induction false} TabsHaveNoBreak(depth: nat)
    ensures '\n' !in Tabs(depth)
  {
    if depth > 0 { TabsHaveNoBreak(depth - 1); }
  }

  lemma LineBreaks(name: string, depth: nat)
    ensures '\n' in IncludeLine(name, depth) <==> '\n' in name
    ensures '\n' in OpenLine(name, depth) <==> '\n' in name
    ensures '\n' !in CloseLine(depth)
  {
    TabsHaveNoBreak(depth);
    assert '\n' !in INCLUDE && '\n' !in END_INCLUDE && '\n' !in PUB_MOD && '\n' !in BRACE && '\n' !in CLOSE;
  }

  /** No module of the tree and no file in it has a line break in its name. */
  ghost predicate PlainTree(t: Tree) {
    (t.filename.Some? ==> '\n' !in t.filename.value) && PlainForest(t.children)
  }

  ghost predicate PlainForest(f: Forest) {
    f.Module? ==> '\n' !in f.name && PlainTree(f.tree) && PlainForest(f.next)
  }

  lemma NoBreaksConcat(a: seq<string>, b: seq<string>)
    ensures NoBreaks(a + b) <==> NoBreaks(a) && NoBreaks(b)
  {
    if NoBreaks(a + b) {
      forall k | 0 <= k < |a| ensures '\n' !in a[k] { assert (a + b)[k] == a[k]; }
      forall k | 0 <= k < |b| ensures '\n' !in b[k] { assert (a + b)[|a| + k] == b[k]; }
    }
  }

  lemma NoBreaksOne(line: string)
    ensures NoBreaks([line]) <==> '\n' !in line
  {
    assert [line][0] == line;
  }

  lemma {:induction false} RenderTreeBreaks(t: Tree, depth: nat)
    ensures NoBreaks(RenderTree(t, depth)) <==> PlainTree(t)
    decreases t, 1
  {
    NoBreaksConcat(RenderFile(t.filename, depth), RenderForest(t.children, depth));
    RenderForestBreaks(t.children, depth);
    if t.filename.Some? {
      LineBreaks(t.filename.value, depth);
      NoBreaksOne(IncludeLine(t.filename.value, depth));
    }
  }

  lemma BlockBreaks(name: string, inner: seq<string>, depth: nat)
    ensures NoBreaks(Block(name, inner, depth)) <==> '\n' !in name && NoBreaks(inner)
  {
    NoBreaksConcat([OpenLine(name, depth)] + inner, [CloseLine(depth)]);
    NoBreaksConcat([OpenLine(name, depth)], inner);
    NoBreaksOne(OpenLine(name, depth));
    NoBreaksOne(CloseLine(depth));
    LineBreaks(name, depth);
  }

  lemma {:induction false} RenderForestBreaks(f: Forest, depth: nat)
    ensures NoBreaks(RenderForest(f, depth)) <==> PlainForest(f)
    decreases f, 0
  {
    if f.Module? {
      NoBreaksConcat(Block(f.name, RenderTree(f.tree, depth + 1), depth), RenderForest(f.next, depth));
      BlockBreaks(f.name, RenderTree(f.tree, depth + 1), depth);
      RenderTreeBreaks(f.tree, depth + 1);
      RenderForestBreaks(f.next, depth);
    }
  }

  /** A plain tree finds plain files only. */
  lemma {:induction false} PlainFiles(t: Tree, at: Package, x: Found)
    requires PlainTree(t) && x in FilesOfTree(t, at)
    ensures '\n' !in x.filename
    decreases t, 1
  {
    if x in FilesOfForest(t.children, at) { PlainForestFiles(t.children, at, x); }
  }

  lemma {:induction false} PlainForestFiles(f: Forest, at: Package, x: Found)
    requires PlainForest(f) && x in FilesOfForest(f, at)
    ensures '\n' !in x.filename
    decreases f, 0
  {
    if x in FilesOfTree(f.tree, at + [f.name]) {
      PlainFiles(f.tree, at + [f.name], x);
    } else {
      PlainForestFiles(f.next, at, x);
    }
  }

  /** Packages without line breaks make a plain tree. */
  lemma {:induction false} PlainTreeOf(ms: seq<Package>, files: set<Package>, p: Package, depth: nat)
    requires forall k, j :: 0 <= k < |ms| && 0 <= j < |ms[k]| ==> '\n' !in ms[k][j]
    requires forall q :: q in files ==> '\n' !in FileName(q)
    ensures PlainTree(TreeOf(ms, files, p, depth))
    decreases depth, 0
  {
    if depth > 0 {
      forall x | x in Submodules(ms, p) ensures '\n' !in x { var k := SubmodulesFrom(ms, p, x); }
      PlainForestOf(ms, files, p, Submodules(ms, p), depth - 1);
    }
  }

  lemma {:induction false} PlainForestOf(ms: seq<Package>, files: set<Package>, p: Package, names: seq<string>, depth: nat)
    requires forall k, j :: 0 <= k < |ms| && 0 <= j < |ms[k]| ==> '\n' !in ms[k][j]
    requires forall q :: q in files ==> '\n' !in FileName(q)
    requires forall x :: x in names ==> '\n' !in x
    ensures PlainForest(ForestOf(ms, files, p, names, depth))
    decreases depth, |names|
  {
    if names != [] {
      PlainTreeOf(ms, files, p + [names[0]], depth);
      PlainForestOf(ms, files, p, names[1..], depth);
    }
  }

  lemma {:induction false} PiecesArePlain(s: string, sep: char)
    requires '\n' !in s
    ensures forall k :: 0 <= k < |Split(s, sep)| ==> '\n' !in Split(s, sep)[k]
  {
    if s != "" { PiecesArePlain(s[1..], sep); }
  }

  /** The lines can be read back from the text exactly when no file name holds a line break. */
  lemma TextReadsBack(files: seq<string>)
    requires AllAccepted(files)
    ensures
      var lines := RenderTree(Whole(Packages(files)), 0);
      Lines(Unlines(lines)) == lines <==> forall k :: 0 <= k < |files| ==> '\n' !in files[k]
  {
    var ms, t := Packages(files), Whole(Packages(files));
    LinesUnlines(RenderTree(t, 0));
    RenderTreeBreaks(t, 0);
    forall k | 0 <= k < |files| ensures FileName(ms[k]) == files[k] { PackageSpellsFile(files[k]); }
    if PlainTree(t) {
      forall k | 0 <= k < |files| ensures '\n' !in files[k] {
        IsFound(ms, k);
        PlainFiles(t, [], IncludeOf(ms[k]));
      }
    }
    if forall k :: 0 <= k < |files| ==> '\n' !in files[k] {
      forall k | 0 <= k < |files| ensures forall j :: 0 <= j < |ms[k]| ==> '\n' !in ms[k][j] {
        PiecesArePlain(files[k], '.');
      }
      PlainTreeOf(ms, set m | m in ms, [], Depth(ms));
    }
  }

  lemma IsFound(ms: seq<Package>, k: nat)
    requires k < |ms|
    ensures IncludeOf(ms[k]) in FilesOfTree(Whole(ms), [])
  {
    forall i | 0 <= i < |ms| ensures |ms[i]| <= Depth(ms) { DepthBounds(ms, i); }
    FilesOfTreeOf(ms, set m | m in ms, [], Depth(ms), IncludeOf(ms[k]));
  }

  /** End to end: a walk over the printed text, whatever the order of the files, meets exactly one
      include per file, below modules that spell the file's package, closes every module it opened
      and never sees a line out of place. */
  lemma TextIncludesEachFileOnce(files: seq<string>)
    requires AllAccepted(files) && Distinct(files)
    requires forall k :: 0 <= k < |files| ==> '\n' !in files[k]
    ensures
      var text := Unlines(RenderTree(Whole(Packages(files)), 0));
      var walk := Walk(Lines(text), [], []);
      && walk.Some? && walk.value.0 == []
      && multiset(walk.value.1) == multiset(seq(|files|, k requires 0 <= k < |files| => Found(PackageParts(files[k]), files[k])))
  {
    var ms := Packages(files);
    TextReadsBack(files);
    WalkRender(Whole(ms));
    forall i, j | 0 <= i < j < |ms| ensures ms[i] != ms[j] { PackagesAreInjective(files[i], files[j]); }
    OneIncludePerPackage(ms);
    IncludesAreFiles(files);
  }

  lemma IncludesAreFiles(files: seq<string>)
    requires AllAccepted(files)
    ensures
      var ms := Packages(files);
      seq(|ms|, k requires 0 <= k < |ms| => IncludeOf(ms[k]))
        == seq(|files|, k requires 0 <= k < |files| => Found(PackageParts(files[k]), files[k]))
  {
    forall k | 0 <= k < |files| ensures IncludeOf(Packages(files)[k]) == Found(PackageParts(files[k]), files[k]) {
      PackageSpellsFile(files[k]);
    }
  }
}

/**
The module tree that nativelink-proto/gen_lib_rs_tool.py prints: how it is laid out in lines, a
parser for the lines, and a walk over them that keeps the stack of open modules.
*/
module ProtoText {
  import opened Options
  import opened SeqLemmas
  import opened ProtoNames

  /** A module: the file it includes and its submodules in order. */
  datatype Tree = Tree(filename: Option<string>, children: Forest)
  datatype Forest = Empty | Module(name: string, tree: Tree, next: Forest)

  const INCLUDE := "include!(\""
  const END_INCLUDE := "\");"
  const PUB_MOD := "pub mod "
  const BRACE := " {"
  const CLOSE := "}"
  const TAB := "    "

  function Tabs(depth: nat): string {
    if depth == 0 then "" else TAB + Tabs(depth - 1)
  }

  function IncludeLine(filename: string, depth: nat): string {
    Tabs(depth) + (INCLUDE + filename + END_INCLUDE)
  }

  function OpenLine(name: string, depth: nat): string {
    Tabs(depth) + (PUB_MOD + name + BRACE)
  }

  function CloseLine(depth: nat): string {
    Tabs(depth) + CLOSE
  }

  function RenderFile(filename: Option<string>, depth: nat): seq<string> {
    if filename.Some? then [IncludeLine(filename.value, depth)] else []
  }

  function RenderTree(t: Tree, depth: nat): seq<string> {
    RenderFile(t.filename, depth) + RenderForest(t.children, depth)
  }

  function RenderForest(f: Forest, depth: nat): seq<string> {
    if f.Empty? then [] else Block(f.name, RenderTree(f.tree, depth + 1), depth) + RenderForest(f.next, depth)
  }

  /** A module around the lines of its contents. */
  function Block(name: string, inner: seq<string>, depth: nat): seq<string> {
    [OpenLine(name, depth)] + inner + [CloseLine(depth)]
  }

  /** The lines are the Rust text they should be, behind four spaces per level. */
  lemma LinesAreRust(name: string, depth: nat)
    ensures IncludeLine(name, depth) == Tabs(depth) + ("include!(\"" + name + "\");")
    ensures OpenLine(name, depth) == Tabs(depth) + ("pub mod " + name + " {")
    ensures CloseLine(depth) == Tabs(depth) + "}"
    ensures |Tabs(depth)| == 4 * depth && forall i :: 0 <= i < |Tabs(depth)| ==> Tabs(depth)[i] == ' '
  {
    TabsAreSpaces(depth);
  }

  lemma {:induction false} TabsAreSpaces(depth: nat)
    ensures |Tabs(depth)| == 4 * depth && forall i :: 0 <= i < |Tabs(depth)| ==> Tabs(depth)[i] == ' '
  {
    if depth > 0 { TabsAreSpaces(depth - 1); }
  }

  // ----- lines to tokens -----

  datatype Token = Include(filename: string) | Open(name: string) | Close | Unknown

  /** The number of tabs a line starts with, and what follows them. */
  function Unindent(line: string): (nat, string) {
    if |line| >= |TAB| && line[..|TAB|] == TAB then
      var (depth, body) := Unindent(line[|TAB|..]);
      (depth + 1, body)
    else (0, line)
  }

  function Between(s: string, pre: string, post: string): Option<string> {
    if |s| >= |pre| + |post| && s[..|pre|] == pre && s[|s| - |post|..] == post
    then Some(s[|pre|..|s| - |post|]) else None
  }

  function ScanBody(body: string): Token {
    var filename, name := Between(body, INCLUDE, END_INCLUDE), Between(body, PUB_MOD, BRACE);
    if filename.Some? then Include(filename.value)
    else if name.Some? then Open(name.value)
    else if body == CLOSE then Close
    else Unknown
  }

  /** A line's indentation and meaning. */
  function Scan(line: string): (nat, Token) {
    var (depth, body) := Unindent(line);
    (depth, ScanBody(body))
  }

  lemma {:induction false} UnindentTabs(depth: nat, body: string)
    requires body != "" && body[0] != ' '
    ensures Unindent(Tabs(depth) + body) == (depth, body)
  {
    if depth == 0 {
      assert Tabs(depth) + body == body;
      assert TAB[0] == ' ';
      if |body| >= |TAB| { assert body[..|TAB|][0] == body[0]; }
    } else {
      var line := Tabs(depth) + body;
      assert line == TAB + (Tabs(depth - 1) + body);
      assert line[..|TAB|] == TAB && line[|TAB|..] == Tabs(depth - 1) + body;
      UnindentTabs(depth - 1, body);
    }
  }

  lemma BetweenSurrounded(pre: string, x: string, post: string)
    ensures Between(pre + x + post, pre, post) == Some(x)
  {
    var s := pre + x + post;
    assert s[..|pre|] == pre && s[|s| - |post|..] == post && s[|pre|..|s| - |post|] == x;
  }

  lemma NotBetween(s: string, pre: string, post: string)
    requires s != "" && pre != "" && s[0] != pre[0]
    ensures Between(s, pre, post) == None
  {
    if |s| >= |pre| { assert s[..|pre|][0] == s[0]; }
  }

  lemma ScanInclude(filename: string, depth: nat)
    ensures Scan(IncludeLine(filename, depth)) == (depth, Include(filename))
  {
    var body := INCLUDE + filename + END_INCLUDE;
    assert body[0] == 'i';
    UnindentTabs(depth, body);
    BetweenSurrounded(INCLUDE, filename, END_INCLUDE);
  }

  lemma ScanOpen(name: string, depth: nat)
    ensures Scan(OpenLine(name, depth)) == (depth, Open(name))
  {
    var body := PUB_MOD + name + BRACE;
    assert body[0] == 'p';
    UnindentTabs(depth, body);
    NotBetween(body, INCLUDE, END_INCLUDE);
    BetweenSurrounded(PUB_MOD, name, BRACE);
  }

  lemma ScanClose(depth: nat)
    ensures Scan(CloseLine(depth)) == (depth, Close)
  {
    assert CLOSE[0] == '}';
    UnindentTabs(depth, CLOSE);
    NotBetween(CLOSE, INCLUDE, END_INCLUDE);
    NotBetween(CLOSE, PUB_MOD, BRACE);
  }

  // ----- parsing -----

  predicate StartsWith(lines: seq<string>, depth: nat, t: Token) {
    lines != [] && Scan(lines[0]) == (depth, t)
  }

  predicate StartsWithOpen(lines: seq<string>, depth: nat) {
    lines != [] && Scan(lines[0]).0 == depth && Scan(lines[0]).1.Open?
  }

  predicate StartsWithInclude(lines: seq<string>, depth: nat) {
    lines != [] && Scan(lines[0]).0 == depth && Scan(lines[0]).1.Include?
  }

  /** Reads one module's contents at the given depth; the second result is what is left. */
  function ParseTree(lines: seq<string>, depth: nat): (r: Option<(Tree, seq<string>)>)
    ensures r.Some? ==> |r.value.1| <= |lines|
    decreases |lines|, 1
  {
    var has := StartsWithInclude(lines, depth);
    var rest := if has then lines[1..] else lines;
    var f := ParseForest(rest, depth);
    if f.None? then None
    else Some((Tree(if has then Some(Scan(lines[0]).1.filename) else None, f.value.0), f.value.1))
  }

  function ParseForest(lines: seq<string>, depth: nat): (r: Option<(Forest, seq<string>)>)
    ensures r.Some? ==> |r.value.1| <= |lines|
    decreases |lines|, 0
  {
    if !StartsWithOpen(lines, depth) then Some((Empty, lines))
    else
      var t := ParseTree(lines[1..], depth + 1);
      if t.None? || !StartsWith(t.value.1, depth, Close) then None
      else
        var f := ParseForest(t.value.1[1..], depth);
        if f.None? then None else Some((Module(Scan(lines[0]).1.name, t.value.0, f.value.0), f.value.1))
  }

  /** Nothing that could continue a module at this depth follows. */
  predicate Ends(rest: seq<string>, depth: nat) {
    !StartsWithInclude(rest, depth) && !StartsWithOpen(rest, depth)
  }

  lemma ParseInclude(filename: string, f: Forest, depth: nat, more: seq<string>, rest: seq<string>)
    requires ParseForest(more, depth) == Some((f, rest))
    ensures ParseTree([IncludeLine(filename, depth)] + more, depth) == Some((Tree(Some(filename), f), rest))
  {
    var lines := [IncludeLine(filename, depth)] + more;
    ScanInclude(filename, depth);
    assert lines[0] == IncludeLine(filename, depth) && lines[1..] == more;
  }

  lemma ParseModule(name: string, t: Tree, f: Forest, depth: nat, inner: seq<string>, more: seq<string>, rest: seq<string>)
    requires ParseTree(inner, depth + 1) == Some((t, [CloseLine(depth)] + more))
    requires ParseForest(more, depth) == Some((f, rest))
    ensures ParseForest([OpenLine(name, depth)] + inner, depth) == Some((Module(name, t, f), rest))
  {
    var lines, after := [OpenLine(name, depth)] + inner, [CloseLine(depth)] + more;
    ScanOpen(name, depth);
    ScanClose(depth);
    assert lines[0] == OpenLine(name, depth) && lines[1..] == inner;
    assert after[0] == CloseLine(depth) && after[1..] == more;
  }

  lemma {:induction false} ParseRenderTree(t: Tree, depth: nat, rest: seq<string>)
    requires Ends(rest, depth)
    ensures ParseTree(RenderTree(t, depth) + rest, depth) == Some((t, rest))
    decreases t, 1
  {
    var more := RenderForest(t.children, depth) + rest;
    ParseRenderForest(t.children, depth, rest);
    Associate(RenderFile(t.filename, depth), RenderForest(t.children, depth), rest);
    if t.filename.Some? {
      ParseInclude(t.filename.value, t.children, depth, more, rest);
    } else {
      FirstIsNotInclude(t.children, depth, rest);
      assert [] + more == more;
    }
  }

  lemma FirstIsNotInclude(f: Forest, depth: nat, rest: seq<string>)
    requires Ends(rest, depth)
    ensures !StartsWithInclude(RenderForest(f, depth) + rest, depth)
  {
    if f.Module? {
      ScanOpen(f.name, depth);
      assert (RenderForest(f, depth) + rest)[0] == OpenLine(f.name, depth);
    } else {
      assert RenderForest(f, depth) + rest == rest;
    }
  }

  lemma RenderModule(f: Forest, depth: nat, rest: seq<string>)
    requires f.Module?
    ensures
      RenderForest(f, depth) + rest ==
      [OpenLine(f.name, depth)] + (RenderTree(f.tree, depth + 1) + ([CloseLine(depth)] + (RenderForest(f.next, depth) + rest)))
  {
    Regroup([OpenLine(f.name, depth)], RenderTree(f.tree, depth + 1), [CloseLine(depth)], RenderForest(f.next, depth), rest);
  }

  lemma {:induction false} ParseRenderForest(f: Forest, depth: nat, rest: seq<string>)
    requires Ends(rest, depth)
    ensures ParseForest(RenderForest(f, depth) + rest, depth) == Some((f, rest))
    decreases f, 0
  {
    if f.Empty? {
      assert RenderForest(f, depth) + rest == rest;
    } else {
      var more := RenderForest(f.next, depth) + rest;
      var after := [CloseLine(depth)] + more;
      RenderModule(f, depth, rest);
      ScanClose(depth);
      ParseRenderTree(f.tree, depth + 1, after);
      ParseRenderForest(f.next, depth, rest);
      ParseModule(f.name, f.tree, f.next, depth, RenderTree(f.tree, depth + 1) + after, more, rest);
    }
  }

  /** Printing and parsing give back the same ordered tree, whatever the names in it. */
  lemma ParseRender(t: Tree)
    ensures ParseTree(RenderTree(t, 0), 0) == Some((t, []))
  {
    ParseRenderTree(t, 0, []);
    assert RenderTree(t, 0) + [] == RenderTree(t, 0);
  }

  // ----- walking -----

  /** An include: the modules open around it and the file it names. */
  datatype Found = Found(stack: Package, filename: string)

  /** Walks the lines with a stack of open modules; fails on a line that is out of place. */
  function Walk(lines: seq<string>, stack: Package, found: seq<Found>): Option<(Package, seq<Found>)> {
    if lines == [] then Some((stack, found))
    else
      var (depth, t) := Scan(lines[0]);
      match t
      case Include(filename) =>
        if depth != |stack| then None else Walk(lines[1..], stack, found + [Found(stack, filename)])
      case Open(name) =>
        if depth != |stack| then None else Walk(lines[1..], stack + [name], found)
      case Close =>
        if stack == [] || depth != |stack| - 1 then None else Walk(lines[1..], stack[..|stack| - 1], found)
      case Unknown => None
  }

  /** The includes of a tree below the modules `at`. */
  function FilesOfTree(t: Tree, at: Package): seq<Found> {
    (if t.filename.Some? then [Found(at, t.filename.value)] else []) + FilesOfForest(t.children, at)
  }

  function FilesOfForest(f: Forest, at: Package): seq<Found> {
    if f.Empty? then [] else FilesOfTree(f.tree, at + [f.name]) + FilesOfForest(f.next, at)
  }

  lemma {:induction false} WalkTree(t: Tree, at: Package, found: seq<Found>, rest: seq<string>)
    ensures Walk(RenderTree(t, |at|) + rest, at, found) == Walk(rest, at, found + FilesOfTree(t, at))
    decreases t, 1
  {
    var more := RenderForest(t.children, |at|) + rest;
    if t.filename.Some? {
      var x := Found(at, t.filename.value);
      ScanInclude(t.filename.value, |at|);
      assert RenderTree(t, |at|) + rest == [IncludeLine(t.filename.value, |at|)] + more;
      WalkForest(t.children, at, found + [x], rest);
      assert found + [x] + FilesOfForest(t.children, at) == found + FilesOfTree(t, at);
    } else {
      assert RenderTree(t, |at|) + rest == more;
      assert FilesOfTree(t, at) == FilesOfForest(t.children, at);
      WalkForest(t.children, at, found, rest);
    }
  }

  lemma {:induction false} WalkForest(f: Forest, at: Package, found: seq<Found>, rest: seq<string>)
    ensures Walk(RenderForest(f, |at|) + rest, at, found) == Walk(rest, at, found + FilesOfForest(f, at))
    decreases f, 0
  {
    if f.Empty? {
      assert RenderForest(f, |at|) + rest == rest && found + FilesOfForest(f, at) == found;
    } else {
      var more, inner := RenderForest(f.next, |at|) + rest, at + [f.name];
      var body, seen := RenderTree(f.tree, |inner|), found + FilesOfTree(f.tree, inner);
      RenderModule(f, |at|, rest);
      WalkTree(f.tree, inner, found, [CloseLine(|at|)] + more);
      WalkModule(f.name, at, body, found, seen, more);
      WalkForest(f.next, at, seen, rest);
      Associate(found, FilesOfTree(f.tree, inner), FilesOfForest(f.next, at));
    }
  }

  lemma WalkModule(name: string, at: Package, body: seq<string>, found: seq<Found>, seen: seq<Found>, more: seq<string>)
    requires Walk(body + ([CloseLine(|at|)] + more), at + [name], found) == Walk([CloseLine(|at|)] + more, at + [name], seen)
    ensures Walk([OpenLine(name, |at|)] + (body + ([CloseLine(|at|)] + more)), at, found) == Walk(more, at, seen)
  {
    WalkOpen(name, at, found, body + ([CloseLine(|at|)] + more));
    WalkClose(at, name, seen, more);
  }

  lemma WalkOpen(name: string, at: Package, found: seq<Found>, rest: seq<string>)
    ensures Walk([OpenLine(name, |at|)] + rest, at, found) == Walk(rest, at + [name], found)
  {
    ScanOpen(name, |at|);
    assert ([OpenLine(name, |at|)] + rest)[1..] == rest;
  }

  lemma WalkClose(at: Package, name: string, found: seq<Found>, rest: seq<string>)
    ensures Walk([CloseLine(|at|)] + rest, at + [name], found) == Walk(rest, at, found)
  {
    ScanClose(|at|);
    assert (at + [name])[..|at|] == at;
    assert ([CloseLine(|at|)] + rest)[1..] == rest;
  }

  /** The walk over a printed tree closes every module it opens and meets the tree's files. */
  lemma WalkRender(t: Tree)
    ensures Walk(RenderTree(t, 0), [], []) == Some(([], FilesOfTree(t, [])))
  {
    WalkTree(t, [], [], []);
    assert RenderTree(t, 0) + [] == RenderTree(t, 0);
    assert [] + FilesOfTree(t, []) == FilesOfTree(t, []);
  }
}

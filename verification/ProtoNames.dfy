/**
File names and lines of text as nativelink-proto/gen_lib_rs_tool.py takes them apart.
*/
module ProtoNames {
  import opened Splitting

  // ----- file names -----

  type Package = seq<string>

  const SUFFIX := ".pb.rs"

  /** The check made on every file. */
  predicate Accepted(path: string) {
    |path| >= |SUFFIX| && path[|path| - |SUFFIX|..] == SUFFIX
  }

  /** The files accepted are those whose names end in ".pb.rs", with anything before, or nothing. */
  lemma AcceptedIffSuffix(path: string)
    ensures Accepted(path) <==> exists stem :: path == stem + ".pb.rs"
  {
    if Accepted(path) { assert path == path[..|path| - |SUFFIX|] + ".pb.rs"; }
  }

  /** The dotted package a file stands for; the slice `[:-2]` of a short list is empty. */
  function PackageParts(path: string): (p: Package)
    ensures |p| == if |Split(path, '.')| < 2 then 0 else |Split(path, '.')| - 2
  {
    var parts := Split(path, '.');
    if |parts| < 2 then [] else parts[..|parts| - 2]
  }

  function FileName(p: Package): string {
    Join(p, '.') + SUFFIX
  }

  lemma SplitSuffix()
    ensures Split(SUFFIX[1..], '.') == ["pb", "rs"]
  {
    assert SUFFIX[1..] == "pb" + ['.'] + "rs";
    SplitConcat("pb", "rs", '.');
    SplitOne("pb", '.');
    SplitOne("rs", '.');
  }

  /** A package has parts, none of them with a dot, and spells the name of its file. */
  lemma PackageSpellsFile(path: string)
    requires Accepted(path)
    ensures PackageParts(path) != [] && FileName(PackageParts(path)) == path
    ensures forall k :: 0 <= k < |PackageParts(path)| ==> '.' !in PackageParts(path)[k]
  {
    var stem := path[..|path| - |SUFFIX|];
    assert path == stem + ['.'] + SUFFIX[1..];
    SplitConcat(stem, SUFFIX[1..], '.');
    SplitSuffix();
    assert PackageParts(path) == Split(stem, '.');
    JoinSplit(stem, '.');
    PiecesHaveNoSeparator(stem, '.');
  }

  /** The check for `.` and `..` among the parts lets every file through. */
  lemma RootCheckNeverFires(path: string)
    requires Accepted(path)
    ensures "." !in PackageParts(path) && ".." !in PackageParts(path)
  {
    PackageSpellsFile(path);
    var parts := PackageParts(path);
    forall k | 0 <= k < |parts| ensures parts[k] != "." && parts[k] != ".." {
      assert '.' in "." && '.' in "..";
    }
  }

  /** Files have the same package only if they have the same name. */
  lemma PackagesAreInjective(a: string, b: string)
    requires Accepted(a) && Accepted(b)
    ensures PackageParts(a) == PackageParts(b) <==> a == b
  {
    PackageSpellsFile(a);
    PackageSpellsFile(b);
  }

  // ----- text -----

  /** What printing the lines puts out. */
  function Unlines(lines: seq<string>): string {
    if lines == [] then "" else lines[0] + ['\n'] + Unlines(lines[1..])
  }

  function Lines(text: string): seq<string> {
    var parts := Split(text, '\n');
    parts[..|parts| - 1]
  }

  lemma {:induction false} SplitUnlines(lines: seq<string>)
    requires forall k :: 0 <= k < |lines| ==> '\n' !in lines[k]
    ensures Split(Unlines(lines), '\n') == lines + [""]
  {
    if lines != [] {
      SplitUnlines(lines[1..]);
      SplitConcat(lines[0], Unlines(lines[1..]), '\n');
      SplitOne(lines[0], '\n');
    }
  }

  /** The lines can be read back from the text exactly when none holds a line break. */
  lemma LinesUnlines(lines: seq<string>)
    ensures Lines(Unlines(lines)) == lines <==> forall k :: 0 <= k < |lines| ==> '\n' !in lines[k]
  {
    if forall k :: 0 <= k < |lines| ==> '\n' !in lines[k] {
      SplitUnlines(lines);
    }
    PiecesHaveNoSeparator(Unlines(lines), '\n');
  }
}

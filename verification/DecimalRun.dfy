/**
The scanner of nativelink-error/src/lib.rs that finds byte arrays printed in decimal.
*/
module DecimalRun {

  function SkipSpaces(s: string, j: nat): (k: nat)
    requires j <= |s|
    ensures j <= k <= |s|
    decreases |s| - j
  {
    if j < |s| && s[j] == ' ' then SkipSpaces(s, j + 1) else j
  }

  predicate IsDigit(c: char) {
    '0' <= c <= '9'
  }

  function SkipDigits(s: string, j: nat): (k: nat)
    requires j <= |s|
    ensures j <= k <= |s|
    decreases |s| - j
  {
    if j < |s| && IsDigit(s[j]) then SkipDigits(s, j + 1) else j
  }

  /** How many numbers follow from `j` on, each but the last followed by a comma. */
  function Numbers(s: string, j: nat): nat
    requires j <= |s|
    decreases |s| - j
  {
    var start := SkipSpaces(s, j);
    var end := SkipDigits(s, start);
    if end == start then 0
    else if end < |s| && s[end] == ',' then 1 + Numbers(s, end + 1)
    else 1
  }

  predicate Bracket(s: string, i: int) {
    0 <= i < |s| && s[i] == '['
  }

  /** The length of the run that starts with the bracket at `i`. */
  function RunAt(s: string, i: int): nat
    requires Bracket(s, i)
  {
    Numbers(s, i + 1)
  }

  /** `max` is the longest run that starts at a bracket before `n`. */
  ghost predicate IsMax(s: string, n: nat, max: nat) {
    && n <= |s|
    && (forall i :: Bracket(s, i) && i < n ==> RunAt(s, i) <= max)
    && (max == 0 || exists i :: Bracket(s, i) && i < n && RunAt(s, i) == max)
  }

  ghost predicate NoBracket(s: string, from: nat, to: nat) {
    to <= |s| && forall i :: from <= i < to ==> !Bracket(s, i)
  }

  method PassSpaces(s: string, from: nat) returns (j: nat)
    requires from <= |s|
    ensures j == SkipSpaces(s, from)
  {
    j := from;
    while j < |s| && s[j] == ' '
      invariant from <= j <= |s| && SkipSpaces(s, from) == SkipSpaces(s, j)
    {
      j := j + 1;
    }
  }

  method PassDigits(s: string, from: nat) returns (j: nat)
    requires from <= |s|
    ensures j == SkipDigits(s, from)
  {
    j := from;
    while j < |s| && IsDigit(s[j])
      invariant from <= j <= |s| && SkipDigits(s, from) == SkipDigits(s, j)
    {
      j := j + 1;
    }
  }

  lemma {:induction false} NoBracketInSpaces(s: string, from: nat, j: nat)
    requires from <= j && NoBracket(s, from, j)
    ensures NoBracket(s, from, SkipSpaces(s, j))
    decreases |s| - j
  {
    if j < |s| && s[j] == ' ' { NoBracketInSpaces(s, from, j + 1); }
  }

  lemma {:induction false} NoBracketInDigits(s: string, from: nat, j: nat)
    requires from <= j && NoBracket(s, from, j)
    ensures NoBracket(s, from, SkipDigits(s, j))
    decreases |s| - j
  {
    if j < |s| && IsDigit(s[j]) { NoBracketInDigits(s, from, j + 1); }
  }

  /** Walks the numbers after the bracket at `i`; no bracket lies among them. */
  method WalkRun(s: string, i: nat) returns (j: nat, count: nat)
    requires Bracket(s, i)
    ensures i < j <= |s| && count == RunAt(s, i) && NoBracket(s, i + 1, j)
  {
    j, count := i + 1, 0;
    while true
      invariant i < j <= |s| && NoBracket(s, i + 1, j)
      invariant RunAt(s, i) == count + Numbers(s, j)
      decreases |s| - j
    {
      NoBracketInSpaces(s, i + 1, j);
      j := PassSpaces(s, j);
      var start := j;
      NoBracketInDigits(s, i + 1, j);
      j := PassDigits(s, start);
      if j == start { break; }
      count := count + 1;
      if j < |s| && s[j] == ',' {
        j := j + 1;
      } else {
        break;
      }
    }
  }

  lemma Extend(s: string, i: nat, j: nat, max: nat, count: nat)
    requires IsMax(s, i, max) && i < j <= |s| && Bracket(s, i) && count == RunAt(s, i) && NoBracket(s, i + 1, j)
    ensures IsMax(s, j, if count > max then count else max)
  {
  }

  /** The scanner finds the longest run over all brackets, although it jumps over each run. */
  method LongestDecimalRun(s: string) returns (max: nat)
    ensures IsMax(s, |s|, max)
  {
    max := 0;
    var i := 0;
    while i < |s|
      invariant i <= |s| && IsMax(s, i, max)
    {
      if s[i] != '[' {
        i := i + 1;
      } else {
        var j, count := WalkRun(s, i);
        Extend(s, i, j, max, count);
        if count > max { max := count; }
        i := if j > i + 1 then j else i + 1;
      }
    }
  }

  // ----- what a run is: a byte array in decimal -----

  function Decimal(n: nat): (d: string)
    ensures d != "" && forall i :: 0 <= i < |d| ==> IsDigit(d[i])
  {
    if n < 10 then [n as char + '0'] else Decimal(n / 10) + [(n % 10) as char + '0']
  }

  /** The numbers of an array as Rust's debug formatting writes them. */
  function Items(ns: seq<nat>): string
    requires ns != []
  {
    if |ns| == 1 then Decimal(ns[0]) else Decimal(ns[0]) + ", " + Items(ns[1..])
  }

  ghost predicate Blank(s: string, j: nat, k: nat) {
    j <= k <= |s| && forall i :: j <= i < k ==> s[i] == ' '
  }

  lemma {:induction false} SpacesEnd(s: string, j: nat, k: nat)
    requires Blank(s, j, k) && (k < |s| ==> s[k] != ' ')
    ensures SkipSpaces(s, j) == k
    decreases k - j
  {
    if j < k { SpacesEnd(s, j + 1, k); }
  }

  lemma {:induction false} DigitsEnd(s: string, j: nat, k: nat)
    requires j <= k <= |s| && (forall i :: j <= i < k ==> IsDigit(s[i])) && (k < |s| ==> !IsDigit(s[k]))
    ensures SkipDigits(s, j) == k
    decreases k - j
  {
    if j < k { DigitsEnd(s, j + 1, k); }
  }

  /** The text `t` stands in `s` at `i`. */
  ghost predicate At(s: string, i: nat, t: string) {
    i + |t| <= |s| && s[i..i + |t|] == t
  }

  lemma AtConcat(s: string, i: nat, a: string, b: string)
    requires At(s, i, a + b)
    ensures At(s, i, a) && At(s, i + |a|, b)
  {
    var t := s[i..i + |a + b|];
    assert s[i..i + |a|] == t[..|a|] == a;
    assert s[i + |a|..i + |a| + |b|] == t[|a|..] == b;
  }

  lemma OneNumber(s: string, j: nat, start: nat, n: nat)
    requires Blank(s, j, start)
    requires At(s, start, Decimal(n)) && start + |Decimal(n)| < |s| && !IsDigit(s[start + |Decimal(n)|])
    ensures SkipSpaces(s, j) == start && SkipDigits(s, start) == start + |Decimal(n)| > start
  {
    var d := Decimal(n);
    assert forall i :: start <= i < start + |d| ==> s[i] == s[start..start + |d|][i - start] == d[i - start];
    SpacesEnd(s, j, start);
    DigitsEnd(s, start, start + |d|);
  }

  lemma CountOne(s: string, j: nat, start: nat, n: nat)
    requires Blank(s, j, start)
    requires At(s, start, Decimal(n) + "]")
    ensures Numbers(s, j) == 1
  {
    AtConcat(s, start, Decimal(n), "]");
    assert s[start + |Decimal(n)|] == ']';
    OneNumber(s, j, start, n);
  }

  lemma CountNext(s: string, j: nat, start: nat, n: nat, rest: string) returns (next: nat)
    requires Blank(s, j, start)
    requires At(s, start, Decimal(n) + (", " + rest))
    ensures 0 < next <= |s| && Numbers(s, j) == 1 + Numbers(s, next - 1) && s[next - 1] == ' ' && At(s, next, rest)
  {
    var end := NumberThenComma(s, j, start, n, rest);
    next := end + 2;
  }

  lemma NumberThenComma(s: string, j: nat, start: nat, n: nat, rest: string) returns (end: nat)
    requires Blank(s, j, start) && At(s, start, Decimal(n) + (", " + rest))
    ensures start < end && end + 2 <= |s| && SkipSpaces(s, j) == start && SkipDigits(s, start) == end
    ensures s[end] == ',' && s[end + 1] == ' ' && At(s, end + 2, rest)
  {
    AtConcat(s, start, Decimal(n), ", " + rest);
    end := start + |Decimal(n)|;
    CommaAt(s, end, rest);
    OneNumber(s, j, start, n);
  }

  lemma CommaAt(s: string, end: nat, rest: string)
    requires At(s, end, ", " + rest)
    ensures end + 2 <= |s| && s[end] == ',' && s[end + 1] == ' ' && At(s, end + 2, rest)
  {
    AtConcat(s, end, ", ", rest);
    assert s[end] == s[end..end + 2][0] && s[end + 1] == s[end..end + 2][1];
  }

  lemma ItemsCons(ns: seq<nat>)
    requires |ns| > 1
    ensures Items(ns) + "]" == Decimal(ns[0]) + (", " + (Items(ns[1..]) + "]"))
  {
  }

  /** The numbers of an array are counted, wherever in a string it is printed. */
  lemma {:induction false} ItemsAreCounted(s: string, j: nat, start: nat, ns: seq<nat>)
    requires Blank(s, j, start)
    requires ns != [] && At(s, start, Items(ns) + "]")
    ensures Numbers(s, j) == |ns|
    decreases |ns|
  {
    if |ns| == 1 {
      CountOne(s, j, start, ns[0]);
    } else {
      ItemsCons(ns);
      var next := CountNext(s, j, start, ns[0], Items(ns[1..]) + "]");
      ItemsAreCounted(s, next - 1, next, ns[1..]);
    }
  }

  // ----- and nothing else is counted -----

  /** A number in the text, from `start` up to `end`. */
  datatype Item = Item(start: nat, end: nat)

  /** Spaces from `j` on, then the digits of the item. */
  ghost predicate IsItem(s: string, j: nat, it: Item) {
    Blank(s, j, it.start) && it.start < it.end <= |s| && forall i :: it.start <= i < it.end ==> IsDigit(s[i])
  }

  /** The items follow one another from `j` on, with a comma behind each but the last. */
  ghost predicate IsList(s: string, j: nat, items: seq<Item>)
    decreases |items|
  {
    items == [] ||
    (&& IsItem(s, j, items[0])
     && (|items| > 1 ==>
           items[0].end < |s| && s[items[0].end] == ',' && IsList(s, items[0].end + 1, items[1..])))
  }

  lemma {:induction false} SkippedAreSpaces(s: string, j: nat)
    requires j <= |s|
    ensures Blank(s, j, SkipSpaces(s, j))
    decreases |s| - j
  {
    if j < |s| && s[j] == ' ' { SkippedAreSpaces(s, j + 1); }
  }

  lemma {:induction false} SkippedAreDigits(s: string, j: nat)
    requires j <= |s|
    ensures forall i :: j <= i < SkipDigits(s, j) ==> IsDigit(s[i])
    decreases |s| - j
  {
    if j < |s| && IsDigit(s[j]) { SkippedAreDigits(s, j + 1); }
  }

  /** As many items as are counted are there. */
  lemma {:induction false} CountedAreThere(s: string, j: nat) returns (items: seq<Item>)
    requires j <= |s|
    ensures IsList(s, j, items) && |items| == Numbers(s, j)
    decreases |s| - j
  {
    var start := SkipSpaces(s, j);
    var end := SkipDigits(s, start);
    items := [];
    if end > start {
      SkippedAreSpaces(s, j);
      SkippedAreDigits(s, start);
      var rest := [];
      if end < |s| && s[end] == ',' { rest := CountedAreThere(s, end + 1); }
      items := [Item(start, end)] + rest;
      assert items[1..] == rest;
    }
  }

  /** No list of items is longer than what is counted. */
  lemma {:induction false} NoneIsLonger(s: string, j: nat, items: seq<Item>)
    requires j <= |s| && IsList(s, j, items)
    ensures |items| <= Numbers(s, j)
    decreases |items|
  {
    if items != [] {
      var it := items[0];
      SpacesEnd(s, j, it.start);
      if |items| > 1 {
        DigitsEnd(s, it.start, it.end);
        NoneIsLonger(s, it.end + 1, items[1..]);
      } else {
        assert IsDigit(s[it.start]);
      }
    }
  }

  /** A run is as long as the longest list of numbers that follows its bracket. */
  lemma RunIsLongestList(s: string, i: nat)
    requires Bracket(s, i)
    ensures exists items :: IsList(s, i + 1, items) && |items| == RunAt(s, i)
    ensures forall items :: IsList(s, i + 1, items) ==> |items| <= RunAt(s, i)
  {
    var items := CountedAreThere(s, i + 1);
    forall others | IsList(s, i + 1, others) ensures |others| <= RunAt(s, i) { NoneIsLonger(s, i + 1, others); }
  }

  lemma AtOwnPlace(before: string, t: string, after: string)
    ensures At(before + t + after, |before|, t)
  {
  }

  /** A string whose longest run is at most `max` holds no printed array of more numbers. */
  lemma NoLongDump(s: string, max: nat, before: string, ns: seq<nat>, after: string)
    requires ns != [] && s == before + ("[" + (Items(ns) + "]")) + after && IsMax(s, |s|, max)
    ensures |ns| <= max
  {
    AtOwnPlace(before, "[" + (Items(ns) + "]"), after);
    AtConcat(s, |before|, "[", Items(ns) + "]");
    assert s[|before|] == s[|before|..|before| + 1][0];
    ItemsAreCounted(s, |before| + 1, |before| + 1, ns);
    assert Bracket(s, |before|);
  }
}

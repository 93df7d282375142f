/**
Taking lists apart at separators and putting them together again.
*/
module Splitting {

  /** The pieces of `s` between separators; there is always one piece more than separators. */
  function Split<T(==)>(s: seq<T>, sep: T): (parts: seq<seq<T>>)
    ensures parts != []
  {
    if s == [] then [[]]
    else
      var rest := Split(s[1..], sep);
      if s[0] == sep then [[]] + rest else [[s[0]] + rest[0]] + rest[1..]
  }

  /** The parts with a separator between them. */
  function Join<T>(parts: seq<seq<T>>, sep: T): seq<T> {
    if parts == [] then []
    else if |parts| == 1 then parts[0]
    else parts[0] + [sep] + Join(parts[1..], sep)
  }

  lemma {:induction false} JoinSplit<T>(s: seq<T>, sep: T)
    ensures Join(Split(s, sep), sep) == s
  {
    if s != [] { JoinSplit(s[1..], sep); }
  }

  lemma {:induction false} SplitConcat<T>(a: seq<T>, b: seq<T>, sep: T)
    ensures Split(a + [sep] + b, sep) == Split(a, sep) + Split(b, sep)
  {
    if a == [] {
      assert (a + [sep] + b)[1..] == b;
    } else {
      assert (a + [sep] + b)[1..] == a[1..] + [sep] + b;
      SplitConcat(a[1..], b, sep);
    }
  }

  lemma {:induction false} PiecesHaveNoSeparator<T>(s: seq<T>, sep: T)
    ensures forall k :: 0 <= k < |Split(s, sep)| ==> sep !in Split(s, sep)[k]
  {
    if s != [] { PiecesHaveNoSeparator(s[1..], sep); }
  }

  lemma {:induction false} SplitOne<T>(s: seq<T>, sep: T)
    requires sep !in s
    ensures Split(s, sep) == [s]
  {
    if s != [] {
      SplitOne(s[1..], sep);
      assert s == [s[0]] + s[1..];
    }
  }

  /** Splitting undoes joining, if no part holds a separator. */
  lemma {:induction false} SplitJoin<T>(parts: seq<seq<T>>, sep: T)
    requires parts != [] && forall k :: 0 <= k < |parts| ==> sep !in parts[k]
    ensures Split(Join(parts, sep), sep) == parts
  {
    SplitOne(parts[0], sep);
    if |parts| > 1 {
      SplitJoin(parts[1..], sep);
      SplitConcat(parts[0], Join(parts[1..], sep), sep);
    }
  }

  /** Splitting undoes joining exactly when no part holds a separator. */
  lemma SplitJoinIff<T>(parts: seq<seq<T>>, sep: T)
    requires parts != []
    ensures Split(Join(parts, sep), sep) == parts <==> forall k :: 0 <= k < |parts| ==> sep !in parts[k]
  {
    if forall k :: 0 <= k < |parts| ==> sep !in parts[k] { SplitJoin(parts, sep); }
    PiecesHaveNoSeparator(Join(parts, sep), sep);
  }
}

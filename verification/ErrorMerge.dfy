/**
Putting errors together, nativelink-error/src/lib.rs: merging errors, optional errors and results,
and flattening a chain of error sources.
*/
module ErrorMerge {
  import opened Options
  import opened SeqLemmas
  import opened Splitting
  import opened ProtoWire
  import opened ErrorStatus

  /** The message "---", which tells apart the messages of merged errors. */
  const MARK: Text := [0x2D, 0x2D, 0x2D]

  function Merge(e: Error, other: Error): Error {
    e.(messages := e.messages + [MARK] + other.messages)
  }

  function MergeOption(e: Option<Error>, other: Option<Error>): Option<Error> {
    if e.Some? then
      if other.Some? then Some(Merge(e.value, other.value)) else e
    else other
  }

  lemma MergeIsAssociative(a: Error, b: Error, c: Error)
    ensures Merge(Merge(a, b), c) == Merge(a, Merge(b, c))
  {
    assert a.messages + [MARK] + b.messages + [MARK] + c.messages == a.messages + [MARK] + (b.messages + [MARK] + c.messages);
  }

  /** Optional errors form a monoid: None is neutral and grouping does not matter. */
  lemma MergeOptionIsMonoid(a: Option<Error>, b: Option<Error>, c: Option<Error>)
    ensures MergeOption(None, a) == a == MergeOption(a, None)
    ensures MergeOption(MergeOption(a, b), c) == MergeOption(a, MergeOption(b, c))
  {
    if a.Some? && b.Some? && c.Some? { MergeIsAssociative(a.value, b.value, c.value); }
  }

  /** One error after the other merged into the first. */
  function MergeAll(es: seq<Error>): Error
    requires es != []
  {
    if |es| == 1 then es[0] else Merge(MergeAll(es[..|es| - 1]), es[|es| - 1])
  }

  function MessageLists(es: seq<Error>): seq<seq<Text>> {
    seq(|es|, i requires 0 <= i < |es| => es[i].messages)
  }

  lemma {:induction false} JoinSnoc<T>(parts: seq<seq<T>>, last: seq<T>, sep: T)
    requires parts != []
    ensures Join(parts + [last], sep) == Join(parts, sep) + [sep] + last
  {
    assert (parts + [last])[1..] == parts[1..] + [last];
    if |parts| > 1 {
      JoinSnoc(parts[1..], last, sep);
      assert parts[0] + [sep] + (Join(parts[1..], sep) + [sep] + last) == parts[0] + [sep] + Join(parts[1..], sep) + [sep] + last;
    }
  }

  /** Merged errors keep all messages, marked off from one another, but only the first error's code
      and details. */
  lemma {:induction false} MergedMessages(es: seq<Error>)
    requires es != []
    ensures MergeAll(es).messages == Join(MessageLists(es), MARK) && MARK == [0x2D, 0x2D, 0x2D]
    ensures MergeAll(es).code == es[0].code && MergeAll(es).details == es[0].details
  {
    var n := |es| - 1;
    if n > 0 {
      MergedMessages(es[..n]);
      assert MessageLists(es) == MessageLists(es[..n]) + [es[n].messages];
      JoinSnoc(MessageLists(es[..n]), es[n].messages, MARK);
    }
  }

  /** One optional error after the other merged, as a caller collects errors. */
  function MergeOptions(os: seq<Option<Error>>): Option<Error> {
    if os == [] then None else MergeOption(MergeOptions(os[..|os| - 1]), os[|os| - 1])
  }

  /** The errors that are there. */
  function Present(os: seq<Option<Error>>): seq<Error> {
    if os == [] then []
    else Present(os[..|os| - 1]) + if os[|os| - 1].Some? then [os[|os| - 1].value] else []
  }

  /** `merged` is what the errors `es` come to. */
  ghost predicate ComesTo(es: seq<Error>, merged: Option<Error>) {
    && (merged.None? <==> es == [])
    && (merged.Some? ==>
          && merged.value.messages == Join(MessageLists(es), MARK)
          && merged.value.code == es[0].code && merged.value.details == es[0].details)
  }

  /** Collecting optional errors loses none: the result is None exactly when all are, and otherwise it
      has the messages of all that are there, in order and marked off by "---", with the code and the
      details of the first. */
  lemma {:induction false} MergedOptions(os: seq<Option<Error>>)
    ensures MergeOptions(os).None? <==> forall o :: o in os ==> o.None?
    ensures ComesTo(Present(os), MergeOptions(os)) && MARK == [0x2D, 0x2D, 0x2D]
  {
    if os != [] {
      var n := |os| - 1;
      MergedOptions(os[..n]);
      AllNone(os);
      OneMorePresent(MergeOptions(os[..n]), os[n], Present(os[..n]));
    }
  }

  lemma AllNone(os: seq<Option<Error>>)
    requires os != []
    ensures (forall o :: o in os ==> o.None?) <==> os[|os| - 1].None? && forall o :: o in os[..|os| - 1] ==> o.None?
  {
    var n := |os| - 1;
    assert os == os[..n] + [os[n]];
  }

  lemma OneMorePresent(merged: Option<Error>, o: Option<Error>, es: seq<Error>)
    requires ComesTo(es, merged)
    ensures ComesTo(es + if o.Some? then [o.value] else [], MergeOption(merged, o))
  {
    if o.None? {
      assert es + [] == es;
    } else if es == [] {
      assert es + [o.value] == [o.value] && MessageLists([o.value]) == [o.value.messages];
    } else {
      assert MessageLists(es + [o.value]) == MessageLists(es) + [o.value.messages];
      JoinSnoc(MessageLists(es), o.value.messages, MARK);
    }
  }

  /** The marks tell which messages belong to which error exactly when no message is itself a mark. */
  lemma MarksTellErrorsApart(es: seq<Error>)
    requires es != []
    ensures
      Split(MergeAll(es).messages, MARK) == MessageLists(es) <==>
      forall i :: 0 <= i < |es| ==> MARK !in es[i].messages
  {
    MergedMessages(es);
    SplitJoinIff(MessageLists(es), MARK);
    assert forall i :: 0 <= i < |es| ==> MessageLists(es)[i] == es[i].messages;
  }

  // ----- chains of sources -----

  datatype StdError = StdError(message: Text, source: Option<StdError>)

  /** The messages of a chain, the innermost source first. */
  function InnermostFirst(err: StdError): seq<Text> {
    (if err.source.Some? then InnermostFirst(err.source.value) else []) + [err.message]
  }

  function Reversed<T>(s: seq<T>): seq<T> {
    if s == [] then [] else Reversed(s[1..]) + [s[0]]
  }

  lemma {:induction false} ReversedSnoc<T>(s: seq<T>, x: T)
    ensures Reversed(s + [x]) == [x] + Reversed(s)
  {
    if s != [] {
      assert (s + [x])[1..] == s[1..] + [x];
      ReversedSnoc(s[1..], x);
    } else {
      assert s + [x] == [x] && [x][1..] == [];
    }
  }

  /** What the sources of an error contribute. */
  function Inside(err: StdError): seq<Text> {
    if err.source.Some? then InnermostFirst(err.source.value) else []
  }

  lemma OneSourceIn(err: StdError, messages: seq<Text>)
    requires err.source.Some?
    ensures Inside(err) + Reversed(messages) == Inside(err.source.value) + Reversed(messages + [err.source.value.message])
  {
    var src := err.source.value;
    ReversedSnoc(messages, src.message);
    Associate(Inside(src), [src.message], Reversed(messages));
  }

  /** The messages of the chain come out innermost first. */
  method FromStdErr(code: Code, err: StdError) returns (e: Error)
    ensures e == Error(code, InnermostFirst(err), [])
  {
    var cur, messages := err, [err.message];
    assert Reversed([err.message]) == [err.message];
    while cur.source.Some?
      invariant InnermostFirst(err) == Inside(cur) + Reversed(messages)
      decreases cur
    {
      OneSourceIn(cur, messages);
      messages := messages + [cur.source.value.message];
      cur := cur.source.value;
    }
    e := Error(code, Reversed(messages), []);
  }
}

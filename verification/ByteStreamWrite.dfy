/**
The contract of resumable writes, nativelink-proto/genproto/google.bytestream.pb.rs: a client sends
a blob in requests over streams that may break, asks how much was committed, and goes on from there.
*/
module ByteStreamWrite {
  import opened Options

  type Bytes = seq<bv8>

  datatype WriteRequest = WriteRequest(offset: nat, data: Bytes, finish: bool)

  /** `stream` is the offset the open stream started at; `flight` are requests sent and not processed. */
  datatype State = State(
    stored: Bytes, complete: bool,
    stream: Option<nat>, flight: seq<WriteRequest>,
    sent: nat, finishSent: bool)

  datatype Event =
    | Begin                            // QueryWriteStatus, then the first request's offset is fixed
    | Send(size: nat, finish: bool)
    | Process
    | ProcessPart(size: nat)           // part of the data is committed and the stream breaks
    | Stray(request: WriteRequest)     // a request that breaks the rules arrives
    | Disconnect

  function Init(): State {
    State([], false, None, [], 0, false)
  }

  /** The rules for a request on the open stream. */
  predicate Acceptable(s: State, q: WriteRequest) {
    s.stream.Some? && !s.complete && q.offset == |s.stored|
  }

  predicate Enabled(blob: Bytes, s: State, e: Event) {
    match e
    case Begin => s.stream.None? && !s.complete
    case Send(size, finish) =>
      s.stream.Some? && !s.finishSent && s.sent + size <= |blob| && (finish ==> s.sent + size == |blob|)
    case Process => s.flight != []
    case ProcessPart(size) => s.flight != [] && size < |s.flight[0].data|
    case Stray(request) => s.stream.Some? && (s.complete || request.offset != |s.stored|)
    case Disconnect => s.stream.Some?
  }

  function Broken(s: State): State {
    s.(stream := None, flight := [])
  }

  /** What the server does with a request. */
  function Serve(s: State, q: WriteRequest): State {
    if Acceptable(s, q) then s.(stored := s.stored + q.data, complete := q.finish) else Broken(s)
  }

  function Apply(blob: Bytes, s: State, e: Event): State
    requires Enabled(blob, s, e)
  {
    match e
    case Begin => s.(stream := Some(|s.stored|), flight := [], sent := |s.stored|, finishSent := false)
    case Send(size, finish) =>
      s.(flight := s.flight + [WriteRequest(s.sent, blob[s.sent..][..size], finish)], sent := s.sent + size, finishSent := finish)
    case Process => Serve(s.(flight := s.flight[1..]), s.flight[0])
    case ProcessPart(size) =>
      var q := s.flight[0];
      if Acceptable(s, q) then Broken(s.(stored := s.stored + q.data[..size])) else Broken(s)
    case Stray(request) => Serve(s, request)
    case Disconnect => Broken(s)
  }

  function Exec(blob: Bytes, events: seq<Event>): Option<State> {
    if events == [] then Some(Init())
    else
      var n := |events| - 1;
      match Exec(blob, events[..n])
      case None => None
      case Some(s) => if Enabled(blob, s, events[n]) then Some(Apply(blob, s, events[n])) else None
  }

  // ----- what every step keeps -----

  /** The requests continue the blob from `from` on without a gap, up to `to`; only the last may finish. */
  predicate InLine(blob: Bytes, flight: seq<WriteRequest>, from: nat, to: nat, finishSent: bool)
    decreases |flight|
  {
    if flight == [] then from == to && !finishSent
    else
      var q := flight[0];
      && q.offset == from && from + |q.data| <= to <= |blob|
      && q.data == blob[from..][..|q.data|]
      && (q.finish ==> |flight| == 1 && finishSent && to == |blob| == from + |q.data|)
      && (|flight| == 1 && !q.finish ==> from + |q.data| == to && !finishSent)
      && (|flight| > 1 ==> InLine(blob, flight[1..], from + |q.data|, to, finishSent))
  }

  ghost predicate Inv(blob: Bytes, s: State) {
    && s.stored <= blob
    && (s.complete ==> s.stored == blob)
    && (s.stream.None? ==> s.flight == [])
    && (s.stream.Some? && !s.complete ==> InLine(blob, s.flight, |s.stored|, s.sent, s.finishSent))
    && (s.complete ==> s.flight == [] && (s.stream.Some? ==> s.finishSent))
  }

  lemma {:induction false} InLineSend(blob: Bytes, flight: seq<WriteRequest>, from: nat, to: nat, size: nat, finish: bool)
    requires InLine(blob, flight, from, to, false) && to + size <= |blob| && (finish ==> to + size == |blob|)
    ensures InLine(blob, flight + [WriteRequest(to, blob[to..][..size], finish)], from, to + size, finish)
    decreases |flight|
  {
    var q := WriteRequest(to, blob[to..][..size], finish);
    if flight == [] {
      assert flight + [q] == [q];
    } else {
      assert (flight + [q])[0] == flight[0];
      if |flight| > 1 {
        assert (flight + [q])[1..] == flight[1..] + [q];
        InLineSend(blob, flight[1..], from + |flight[0].data|, to, size, finish);
      } else {
        assert (flight + [q])[1..] == [] + [q];
        InLineSend(blob, [], to, to, size, finish);
      }
    }
  }

  lemma InLineProcess(blob: Bytes, s: State)
    requires Inv(blob, s) && s.flight != []
    ensures Acceptable(s, s.flight[0]) && s.stored + s.flight[0].data <= blob
    ensures s.flight[0].finish ==> s.stored + s.flight[0].data == blob && s.flight[1..] == [] && s.finishSent
    ensures !s.flight[0].finish ==> InLine(blob, s.flight[1..], |s.stored| + |s.flight[0].data|, s.sent, s.finishSent)
  {
    var q := s.flight[0];
    assert blob == s.stored + blob[|s.stored|..];
    assert s.stored + q.data == blob[..|s.stored| + |q.data|];
  }

  lemma PartIsPrefix(stored: Bytes, data: Bytes, size: nat, blob: Bytes)
    requires stored + data <= blob && size <= |data|
    ensures stored + data[..size] <= blob
  {
    assert stored + data[..size] == (stored + data)[..|stored| + size];
  }

  lemma StepKeepsInv(blob: Bytes, s: State, e: Event)
    requires Inv(blob, s) && Enabled(blob, s, e)
    ensures Inv(blob, Apply(blob, s, e))
  {
    match e
    case Send(size, finish) => InLineSend(blob, s.flight, |s.stored|, s.sent, size, finish);
    case Process => InLineProcess(blob, s);
    case ProcessPart(size) =>
      InLineProcess(blob, s);
      PartIsPrefix(s.stored, s.flight[0].data, size, blob);
    case _ =>
  }

  lemma {:induction false} Reachable(blob: Bytes, events: seq<Event>)
    requires Exec(blob, events).Some?
    ensures Inv(blob, Exec(blob, events).value)
  {
    if events != [] {
      Reachable(blob, events[..|events| - 1]);
      StepKeepsInv(blob, Exec(blob, events[..|events| - 1]).value, events[|events| - 1]);
    }
  }

  // ----- what the contract promises -----

  /** A request with `finish_write` has been processed. */
  ghost predicate FinishProcessed(blob: Bytes, events: seq<Event>)
    requires Exec(blob, events).Some?
  {
    events != [] &&
    var n := |events| - 1;
    FinishProcessed(blob, events[..n]) || (events[n].Process? && Exec(blob, events[..n]).value.flight[0].finish)
  }

  /** Over any run the stored bytes are a prefix of the blob, and the write is complete exactly when
      a finishing request was processed, with the whole blob stored. */
  lemma {:induction false} StoredIsPrefix(blob: Bytes, events: seq<Event>)
    requires Exec(blob, events).Some?
    ensures
      var s := Exec(blob, events).value;
      s.stored <= blob && (s.complete <==> FinishProcessed(blob, events)) && (s.complete ==> s.stored == blob)
  {
    Reachable(blob, events);
    if events != [] {
      var n := |events| - 1;
      StoredIsPrefix(blob, events[..n]);
      Reachable(blob, events[..n]);
      StepCompletes(blob, Exec(blob, events[..n]).value, events[n]);
    }
  }

  lemma StepCompletes(blob: Bytes, s: State, e: Event)
    requires Inv(blob, s) && Enabled(blob, s, e)
    ensures Apply(blob, s, e).complete <==> s.complete || (e.Process? && s.flight[0].finish)
  {
    if e.Process? || e.ProcessPart? { InLineProcess(blob, s); }
  }

  /** The sizes of the requests sent on the open stream and not processed. */
  function Sizes(events: seq<Event>): seq<nat> {
    if events == [] then []
    else
      var n := |events| - 1;
      var before := Sizes(events[..n]);
      match events[n]
      case Send(size, _) => before + [size]
      case Process => if before == [] then [] else before[1..]
      case _ => []
  }

  /** How many bytes the run has committed, and where the open stream started, if there is one. */
  function Committed(events: seq<Event>): nat {
    if events == [] then 0
    else
      var n := |events| - 1;
      Committed(events[..n]) +
      match events[n]
      case Process => if Sizes(events[..n]) == [] then 0 else Sizes(events[..n])[0]
      case ProcessPart(size) => size
      case _ => 0
  }

  function StreamStart(events: seq<Event>): Option<nat> {
    if events == [] then None
    else
      var n := |events| - 1;
      match events[n]
      case Begin => Some(Committed(events[..n]))
      case Send(_, _) => StreamStart(events[..n])
      case Process => StreamStart(events[..n])
      case _ => None
  }

  ghost predicate SameSizes(flight: seq<WriteRequest>, sizes: seq<nat>) {
    |flight| == |sizes| && forall i :: 0 <= i < |flight| ==> |flight[i].data| == sizes[i]
  }

  /** What is committed, exactly: each request processed adds its data, a stream that breaks in the middle
      of one adds the part that got through, and a request that breaks the rules adds nothing and
      ends the stream. */
  lemma {:induction false} CommittedIsWhatGotThrough(blob: Bytes, events: seq<Event>)
    requires Exec(blob, events).Some?
    ensures
      var s := Exec(blob, events).value;
      && Committed(events) <= |blob| && s.stored == blob[..Committed(events)]
      && s.stream == StreamStart(events) && SameSizes(s.flight, Sizes(events))
  {
    if events != [] {
      var n := |events| - 1;
      CommittedIsWhatGotThrough(blob, events[..n]);
      Reachable(blob, events[..n]);
      Reachable(blob, events);
      OneStepThrough(blob, Exec(blob, events[..n]).value, events[n], Sizes(events[..n]));
    }
  }

  lemma OneStepThrough(blob: Bytes, s: State, e: Event, sizes: seq<nat>)
    requires Inv(blob, s) && Enabled(blob, s, e) && SameSizes(s.flight, sizes)
    ensures
      var t := Apply(blob, s, e);
      && |t.stored| == |s.stored| + (match e
                                     case Process => if sizes == [] then 0 else sizes[0]
                                     case ProcessPart(size) => size
                                     case _ => 0)
      && t.stream == (match e
                      case Begin => Some(|s.stored|)
                      case Send(_, _) => s.stream
                      case Process => s.stream
                      case _ => None)
      && SameSizes(t.flight, match e
                             case Send(size, _) => sizes + [size]
                             case Process => if sizes == [] then [] else sizes[1..]
                             case _ => [])
  {
    if e.Process? || e.ProcessPart? { InLineProcess(blob, s); }
  }

  /** How far the client has sent, and whether it has sent the end, on the latest stream. */
  function SentUpTo(events: seq<Event>): nat {
    if events == [] then 0
    else
      var n := |events| - 1;
      match events[n]
      case Begin => Committed(events[..n])
      case Send(size, _) => SentUpTo(events[..n]) + size
      case _ => SentUpTo(events[..n])
  }

  predicate EndSent(events: seq<Event>) {
    events != [] &&
    var n := |events| - 1;
    match events[n]
    case Begin => false
    case Send(_, finish) => finish
    case _ => EndSent(events[..n])
  }

  lemma {:induction false} SentIsAfter(blob: Bytes, events: seq<Event>)
    requires Exec(blob, events).Some?
    ensures Exec(blob, events).value.sent == SentUpTo(events) && (Exec(blob, events).value.finishSent <==> EndSent(events))
  {
    if events != [] {
      var n := |events| - 1;
      SentIsAfter(blob, events[..n]);
      CommittedIsWhatGotThrough(blob, events[..n]);
      SentStep(blob, Exec(blob, events[..n]).value, events[n]);
    }
  }

  lemma SentStep(blob: Bytes, s: State, e: Event)
    requires Enabled(blob, s, e)
    ensures
      var t := Apply(blob, s, e);
      match e
      case Begin => t.sent == |s.stored| && !t.finishSent
      case Send(size, finish) => t.sent == s.sent + size && t.finishSent == finish
      case _ => t.sent == s.sent && t.finishSent == s.finishSent
  {
  }

  /** What can happen, exactly, by what has happened: a stream opens while there is none and the write is
      not complete; requests follow one another up to the end, which is sent once and only with the
      last byte; what is in flight is processed in order, in whole or in part; and the stream can
      break, or meet a request that breaks the rules, at any time. */
  lemma MayIff(blob: Bytes, events: seq<Event>, size: nat, finish: bool, q: WriteRequest)
    requires Exec(blob, events).Some?
    ensures
      var s := Exec(blob, events).value;
      var open, complete := StreamStart(events).Some?, FinishProcessed(blob, events);
      && (Enabled(blob, s, Begin) <==> !open && !complete)
      && (Enabled(blob, s, Send(size, finish)) <==>
            && open && !EndSent(events) && SentUpTo(events) + size <= |blob|
            && (finish ==> SentUpTo(events) + size == |blob|))
      && (Enabled(blob, s, Process) <==> Sizes(events) != [])
      && (Enabled(blob, s, ProcessPart(size)) <==> Sizes(events) != [] && size < Sizes(events)[0])
      && (Enabled(blob, s, Stray(q)) <==> open && (complete || q.offset != Committed(events)))
      && (Enabled(blob, s, Disconnect) <==> open)
  {
    CommittedIsWhatGotThrough(blob, events);
    StoredIsPrefix(blob, events);
    SentIsAfter(blob, events);
  }

  /** What a later query reports is never less than what an earlier one did. */
  lemma {:induction false} CommittedSizeNeverDecreases(blob: Bytes, before: seq<Event>, after: seq<Event>)
    requires Exec(blob, before + after).Some?
    ensures Exec(blob, before).Some?
    ensures Exec(blob, before).value.stored <= Exec(blob, before + after).value.stored
    ensures Exec(blob, before).value.complete ==> Exec(blob, before + after).value.complete
    decreases |after|
  {
    if after == [] {
      assert before + after == before;
    } else {
      var n := |after| - 1;
      assert (before + after)[..|before + after| - 1] == before + after[..n];
      CommittedSizeNeverDecreases(blob, before, after[..n]);
      Reachable(blob, before + after[..n]);
      StepGrows(blob, Exec(blob, before + after[..n]).value, after[n]);
    }
  }

  lemma StepGrows(blob: Bytes, s: State, e: Event)
    requires Inv(blob, s) && Enabled(blob, s, e)
    ensures s.stored <= Apply(blob, s, e).stored && (s.complete ==> Apply(blob, s, e).complete)
  {
    if e.Process? || e.ProcessPart? { InLineProcess(blob, s); }
  }

  lemma ExecSnoc(blob: Bytes, events: seq<Event>, e: Event)
    requires Exec(blob, events).Some? && Enabled(blob, Exec(blob, events).value, e)
    ensures Exec(blob, events + [e]) == Some(Apply(blob, Exec(blob, events).value, e))
  {
    assert (events + [e])[..|events|] == events;
  }

  /** However a write was interrupted, querying and sending the rest completes it. */
  lemma CanAlwaysResume(blob: Bytes, events: seq<Event>) returns (more: seq<Event>)
    requires Exec(blob, events).Some? && Exec(blob, events).value.stream.None? && !Exec(blob, events).value.complete
    ensures Exec(blob, more).Some? && Exec(blob, more).value.complete && Exec(blob, more).value.stored == blob
  {
    Reachable(blob, events);
    var s := Exec(blob, events).value;
    var send := Send(|blob| - |s.stored|, true);
    ExecSnoc(blob, events, Begin);
    ExecSnoc(blob, events + [Begin], send);
    ExecSnoc(blob, events + [Begin] + [send], Process);
    more := events + [Begin] + [send] + [Process];
    Reachable(blob, more);
  }
}

/**
Reading a blob while it is written, specs/StreamingBlobReadDuringWrite.tla: one writer, any number
of readers, and the classifier that turns what a reader sees at the end into its outcome. The
producer's error reaches the classifier through a slot of its own, the seam, at some later step.
*/
module StreamingSeam {
  import opened Options

  /** `chunks` is the declared number of chunks; the flags are those of the specification. */
  datatype Config = Config(
    readers: set<nat>, chunks: nat,
    allowShort: bool, allowError: bool, allowDrop: bool,
    shield: bool, propagate: bool)

  datatype Writer = Active | DoneFull | DoneShort | DoneError | DoneDropped

  datatype Reader = Idle | Subscribed | Waiting | DoneOk | DoneErr | SilentZero | SilentShort | TimedOut

  datatype State = State(
    writer: Writer, count: nat, seam: bool,
    reader: map<nat, Reader>, cursor: map<nat, nat>)

  datatype Event =
    | Send | EofFull | EofShort | SendError | DropWriter | SeamObserves
    | Subscribe(r: nat) | Consume(r: nat) | Wait(r: nat) | WakeUp(r: nat) | TimeOut(r: nat) | Observe(r: nat)

  function Init(c: Config): State {
    State(Active, 0, false, map r | r in c.readers :: Idle, map r | r in c.readers :: 0)
  }

  predicate Failed(s: State) {
    s.writer in {DoneError, DoneDropped}
  }

  predicate Enabled(c: Config, s: State, e: Event) {
    match e
    case Send => s.writer == Active && s.count < c.chunks
    case EofFull => s.writer == Active && s.count == c.chunks
    case EofShort => c.allowShort && s.writer == Active && s.count < c.chunks
    case SendError => c.allowError && s.writer == Active
    case DropWriter => c.allowDrop && s.writer == Active
    case SeamObserves => c.propagate && Failed(s) && !s.seam
    case _ => IsReaderEvent(e) && e.r in s.reader && e.r in s.cursor && CanRead(s, s.reader[e.r], s.cursor[e.r], e)
  }

  /** What a reader in state `x` can do. */
  predicate CanRead(s: State, x: Reader, cursor: nat, e: Event) {
    match e
    case Subscribe(_) => x == Idle
    case Consume(_) => x == Subscribed && cursor < s.count
    case Wait(_) => x == Subscribed && cursor == s.count && s.writer == Active
    case WakeUp(_) => x == Waiting && (cursor < s.count || s.writer != Active)
    case TimeOut(_) => x == Waiting
    case Observe(_) => x == Subscribed && cursor == s.count && s.writer != Active
    case _ => false
  }

  predicate IsReaderEvent(e: Event) {
    e.Subscribe? || e.Consume? || e.Wait? || e.WakeUp? || e.TimeOut? || e.Observe?
  }

  function Silence(s: State): Reader {
    if s.count == 0 then SilentZero else SilentShort
  }

  /** What a reader that has caught up with a finished writer is told. */
  function Outcome(c: Config, s: State): Reader {
    if !Failed(s) && s.count == c.chunks then DoneOk
    else if !Failed(s) then if c.shield then DoneErr else Silence(s)
    else if s.seam then DoneErr else Silence(s)
  }

  function ReaderAfter(c: Config, s: State, e: Event): Reader
    requires IsReaderEvent(e) && Enabled(c, s, e)
  {
    match e
    case Wait(_) => Waiting
    case TimeOut(_) => TimedOut
    case Observe(_) => Outcome(c, s)
    case _ => Subscribed
  }

  function Apply(c: Config, s: State, e: Event): State
    requires Enabled(c, s, e)
  {
    if IsReaderEvent(e) then
      s.(reader := s.reader[e.r := ReaderAfter(c, s, e)],
         cursor := s.cursor[e.r := if e.Subscribe? then 0 else if e.Consume? then s.cursor[e.r] + 1 else s.cursor[e.r]])
    else
      match e
      case Send => s.(count := s.count + 1)
      case EofFull => s.(writer := DoneFull)
      case EofShort => s.(writer := DoneShort)
      case SendError => s.(writer := DoneError)
      case DropWriter => s.(writer := DoneDropped)
      case SeamObserves => s.(seam := true)
  }

  function Exec(c: Config, events: seq<Event>): Option<State> {
    if events == [] then Some(Init(c))
    else
      var n := |events| - 1;
      match Exec(c, events[..n])
      case None => None
      case Some(s) => if Enabled(c, s, events[n]) then Some(Apply(c, s, events[n])) else None
  }

  // ----- what every step keeps -----

  predicate Silent(x: Reader) {
    x == SilentZero || x == SilentShort
  }

  /** The seam can be silent: an error that the classifier may miss, or a short blob without shield. */
  predicate CanBeSilent(c: Config) {
    c.allowError || c.allowDrop || (c.allowShort && !c.shield)
  }

  ghost predicate ReaderInv(c: Config, s: State, x: Reader, cursor: nat) {
    && cursor <= s.count
    && (x == DoneOk ==> s.writer == DoneFull && cursor == c.chunks)
    && (x == DoneErr ==> s.writer in {DoneShort, DoneError, DoneDropped})
    && (Silent(x) ==> cursor == s.count && (Failed(s) || (s.writer == DoneShort && !c.shield)))
    && (x == Subscribed || x == Waiting || x == Idle || x == TimedOut || s.writer != Active)
  }

  ghost predicate Inv(c: Config, s: State) {
    && s.count <= c.chunks && s.reader.Keys == s.cursor.Keys == c.readers
    && (s.writer == DoneFull ==> s.count == c.chunks)
    && (s.writer == DoneShort ==> s.count < c.chunks && c.allowShort)
    && (s.writer == DoneError ==> c.allowError) && (s.writer == DoneDropped ==> c.allowDrop)
    && (forall r :: r in s.reader ==> ReaderInv(c, s, s.reader[r], s.cursor[r]))
  }

  lemma StepKeepsInv(c: Config, s: State, e: Event)
    requires Inv(c, s) && Enabled(c, s, e)
    ensures Inv(c, Apply(c, s, e))
  {
    var t := Apply(c, s, e);
    forall r | r in t.reader ensures ReaderInv(c, t, t.reader[r], t.cursor[r]) {
      assert ReaderInv(c, s, s.reader[r], s.cursor[r]);
      if IsReaderEvent(e) { ReaderKeeps(c, s, e, r); } else { WriterKeeps(c, s, e, s.reader[r], s.cursor[r]); }
    }
    if !IsReaderEvent(e) { WriterEnds(c, s, e); }
  }

  lemma WriterEnds(c: Config, s: State, e: Event)
    requires Enabled(c, s, e) && !IsReaderEvent(e) && s.count <= c.chunks
    ensures
      var t := Apply(c, s, e);
      && s.count <= t.count <= c.chunks && t.reader == s.reader && t.cursor == s.cursor
      && (t.writer == s.writer || (s.writer == Active && t.count == s.count
           && (t.writer == DoneFull ==> t.count == c.chunks)
           && (t.writer == DoneShort ==> t.count < c.chunks && c.allowShort)
           && (t.writer == DoneError ==> c.allowError) && (t.writer == DoneDropped ==> c.allowDrop)))
      && (t.count == s.count || s.writer == t.writer == Active)
  {
  }

  lemma WriterKeeps(c: Config, s: State, e: Event, x: Reader, cursor: nat)
    requires Enabled(c, s, e) && !IsReaderEvent(e) && s.count <= c.chunks && ReaderInv(c, s, x, cursor)
    ensures ReaderInv(c, Apply(c, s, e), x, cursor)
  {
    WriterEnds(c, s, e);
  }

  lemma ReaderKeeps(c: Config, s: State, e: Event, r: nat)
    requires Enabled(c, s, e) && IsReaderEvent(e) && r in s.reader && r in s.cursor
    requires s.writer == DoneFull ==> s.count == c.chunks
    requires s.writer == DoneShort ==> s.count < c.chunks
    requires ReaderInv(c, s, s.reader[r], s.cursor[r])
    ensures
      var t := Apply(c, s, e);
      r in t.reader && r in t.cursor && ReaderInv(c, t, t.reader[r], t.cursor[r])
  {
  }

  lemma {:induction false} Reachable(c: Config, events: seq<Event>)
    requires Exec(c, events).Some?
    ensures Inv(c, Exec(c, events).value)
  {
    if events != [] {
      Reachable(c, events[..|events| - 1]);
      StepKeepsInv(c, Exec(c, events[..|events| - 1]).value, events[|events| - 1]);
    }
  }

  // ----- outcomes -----

  /** A reader told Ok has read the whole blob, and no reader is past what was written. */
  lemma OkMeansWholeBlob(c: Config, events: seq<Event>, r: nat)
    requires Exec(c, events).Some? && r in c.readers
    ensures
      var s := Exec(c, events).value;
      && r in s.reader && r in s.cursor && s.cursor[r] <= s.count <= c.chunks
      && (s.reader[r] == DoneOk ==> s.writer == DoneFull && s.cursor[r] == c.chunks)
      && (s.writer == DoneFull ==> s.reader[r] != DoneErr && !Silent(s.reader[r]))
  {
    Reachable(c, events);
    var s := Exec(c, events).value;
    assert ReaderInv(c, s, s.reader[r], s.cursor[r]);
  }

  ghost predicate NeverSilent(c: Config) {
    forall events, r :: Exec(c, events).Some? && r in Exec(c, events).value.reader ==> !Silent(Exec(c, events).value.reader[r])
  }

  lemma NotSilent(c: Config, events: seq<Event>, r: nat)
    requires Exec(c, events).Some? && r in Exec(c, events).value.reader && !CanBeSilent(c)
    ensures !Silent(Exec(c, events).value.reader[r])
  {
    Reachable(c, events);
    var s := Exec(c, events).value;
    assert ReaderInv(c, s, s.reader[r], s.cursor[r]);
  }

  lemma ExecSnoc(c: Config, events: seq<Event>, e: Event)
    requires Exec(c, events).Some? && Enabled(c, Exec(c, events).value, e)
    ensures Exec(c, events + [e]) == Some(Apply(c, Exec(c, events).value, e))
  {
    assert (events + [e])[..|events|] == events;
  }

  /** A reader that gets to the end before the seam has the error is told nothing. */
  lemma SilenceHappens(c: Config, r: nat) returns (events: seq<Event>)
    requires CanBeSilent(c) && r in c.readers && c.chunks > 0
    ensures Exec(c, events).Some? && r in Exec(c, events).value.reader && Exec(c, events).value.reader[r] == SilentZero
  {
    var e, s1 := EndsAtOnce(c);
    var r1 := Extend(c, [], Init(c), e, s1);
    var s2 := s1.(reader := s1.reader[r := Subscribed], cursor := s1.cursor[r := 0]);
    var r2 := Extend(c, r1, s1, Subscribe(r), s2);
    var s3 := s2.(reader := s2.reader[r := SilentZero], cursor := s2.cursor[r := 0]);
    events := Extend(c, r2, s2, Observe(r), s3);
  }

  lemma Extend(c: Config, events: seq<Event>, s: State, e: Event, t: State) returns (more: seq<Event>)
    requires Exec(c, events) == Some(s) && Enabled(c, s, e) && Apply(c, s, e) == t
    ensures more == events + [e] && Exec(c, more) == Some(t)
  {
    ExecSnoc(c, events, e);
    more := events + [e];
  }

  /** The writer ends before it has sent anything, in a way the classifier is silent about. */
  lemma EndsAtOnce(c: Config) returns (e: Event, s: State)
    requires CanBeSilent(c) && c.chunks > 0
    ensures Enabled(c, Init(c), e) && Apply(c, Init(c), e) == s
    ensures s == Init(c).(writer := s.writer) && s.writer != Active && Outcome(c, s) == SilentZero
  {
    e := if c.allowError then SendError else if c.allowDrop then DropWriter else EofShort;
    s := Apply(c, Init(c), e);
  }

  /** No reader ever ends silently if and only if the writer cannot fail and, without the shield,
      cannot end short: the two fixes alone do not make every outcome Ok or Err. */
  lemma NeverSilentIff(c: Config)
    requires c.readers != {} && c.chunks > 0
    ensures NeverSilent(c) <==> !CanBeSilent(c)
  {
    if CanBeSilent(c) {
      var r :| r in c.readers;
      var events := SilenceHappens(c, r);
    } else {
      forall events, r | Exec(c, events).Some? && r in Exec(c, events).value.reader
        ensures !Silent(Exec(c, events).value.reader[r])
      {
        NotSilent(c, events, r);
      }
    }
  }

  /** With the shield on, a reader ends silently exactly when the writer has failed and the seam has
      not seen it yet. */
  lemma SilentOnlyBeforeTheSeam(c: Config, events: seq<Event>, r: nat)
    requires c.shield && Exec(c, events).Some? && Enabled(c, Exec(c, events).value, Observe(r))
    ensures
      var s := Exec(c, events).value;
      && (Silent(Apply(c, s, Observe(r)).reader[r]) <==> Failed(s) && !s.seam)
      && (Apply(c, s, Observe(r)).reader[r] == DoneOk <==> s.writer == DoneFull)
  {
    Reachable(c, events);
  }

  /** How the writer has ended, and whether the seam has seen it. */
  function WriterAfter(events: seq<Event>): Writer {
    if events == [] then Active
    else
      var n := |events| - 1;
      match events[n]
      case EofFull => DoneFull
      case EofShort => DoneShort
      case SendError => DoneError
      case DropWriter => DoneDropped
      case _ => WriterAfter(events[..n])
  }

  function Sent(events: seq<Event>): nat {
    if events == [] then 0 else Sent(events[..|events| - 1]) + if events[|events| - 1].Send? then 1 else 0
  }

  lemma {:induction false} WriterIsAfter(c: Config, events: seq<Event>)
    requires Exec(c, events).Some?
    ensures
      var s := Exec(c, events).value;
      s.writer == WriterAfter(events) && s.count == Sent(events) && (s.seam <==> SeamObserves in events)
  {
    if events != [] {
      var n := |events| - 1;
      WriterIsAfter(c, events[..n]);
      WriterStep(c, Exec(c, events[..n]).value, events[n]);
      assert events == events[..n] + [events[n]];
    }
  }

  lemma WriterStep(c: Config, s: State, e: Event)
    requires Enabled(c, s, e)
    ensures
      var t := Apply(c, s, e);
      && t.count == s.count + (if e.Send? then 1 else 0) && (t.seam <==> s.seam || e.SeamObserves?)
      && t.writer == (match e
                      case EofFull => DoneFull
                      case EofShort => DoneShort
                      case SendError => DoneError
                      case DropWriter => DoneDropped
                      case _ => s.writer)
  {
  }

  /** The latest step of reader `r`. */
  function LatestOf(events: seq<Event>, r: nat): (latest: Option<Event>)
    ensures latest.Some? ==> IsReaderEvent(latest.value)
  {
    if events == [] then None
    else
      var n := |events| - 1;
      if IsReaderEvent(events[n]) && events[n].r == r then Some(events[n]) else LatestOf(events[..n], r)
  }

  function Consumed(events: seq<Event>, r: nat): nat {
    if events == [] then 0 else Consumed(events[..|events| - 1], r) + if events[|events| - 1] == Consume(r) then 1 else 0
  }

  /** Where the latest step of a reader leaves it. */
  predicate LeftBy(latest: Option<Event>, x: Reader) {
    match latest
    case None => x == Idle
    case Some(e) =>
      match e
      case Wait(_) => x == Waiting
      case TimeOut(_) => x == TimedOut
      case Observe(_) => x == DoneOk || x == DoneErr || Silent(x)
      case _ => x == Subscribed
  }

  lemma {:induction false} ReaderIsAfter(c: Config, events: seq<Event>, r: nat)
    requires Exec(c, events).Some? && r in c.readers
    ensures
      var s := Exec(c, events).value;
      && r in s.reader && r in s.cursor && s.cursor[r] == Consumed(events, r) && LeftBy(LatestOf(events, r), s.reader[r])
      && (LatestOf(events, r).None? ==> Consumed(events, r) == 0)
  {
    if events != [] {
      var n := |events| - 1;
      ReaderIsAfter(c, events[..n], r);
      ReaderMoves(c, Exec(c, events[..n]).value, events[n], r);
    }
  }

  lemma ReaderMoves(c: Config, s: State, e: Event, r: nat)
    requires Enabled(c, s, e) && r in s.reader && r in s.cursor
    ensures
      var t := Apply(c, s, e);
      && r in t.reader && r in t.cursor
      && (if IsReaderEvent(e) && e.r == r then LeftBy(Some(e), t.reader[r]) else t.reader[r] == s.reader[r])
      && (if e == Subscribe(r) then s.reader[r] == Idle && t.cursor[r] == 0
          else t.cursor[r] == s.cursor[r] + if e == Consume(r) then 1 else 0)
  {
  }

  /** The reader is in its loop: subscribed, neither parked nor at an end. */
  predicate InLoop(latest: Option<Event>) {
    latest.Some? && (latest.value.Subscribe? || latest.value.Consume? || latest.value.WakeUp?)
  }

  predicate IsParked(latest: Option<Event>) {
    latest.Some? && latest.value.Wait?
  }

  /** What the writer and the seam can do, exactly, by what has happened. */
  lemma WriterMayIff(c: Config, events: seq<Event>)
    requires Exec(c, events).Some?
    ensures
      var s := Exec(c, events).value;
      var active := WriterAfter(events) == Active;
      var failed := WriterAfter(events) == DoneError || WriterAfter(events) == DoneDropped;
      && (Enabled(c, s, Send) <==> active && Sent(events) < c.chunks)
      && (Enabled(c, s, EofFull) <==> active && Sent(events) == c.chunks)
      && (Enabled(c, s, EofShort) <==> c.allowShort && active && Sent(events) < c.chunks)
      && (Enabled(c, s, SendError) <==> c.allowError && active)
      && (Enabled(c, s, DropWriter) <==> c.allowDrop && active)
      && (Enabled(c, s, SeamObserves) <==> c.propagate && failed && SeamObserves !in events)
  {
    WriterIsAfter(c, events);
  }

  /** What a reader can do, exactly. */
  lemma ReaderMayIff(c: Config, events: seq<Event>, r: nat)
    requires Exec(c, events).Some? && r in c.readers
    ensures
      var s := Exec(c, events).value;
      var loop, parked := InLoop(LatestOf(events, r)), IsParked(LatestOf(events, r));
      var active, behind := WriterAfter(events) == Active, Consumed(events, r) < Sent(events);
      && (Enabled(c, s, Subscribe(r)) <==> LatestOf(events, r).None?)
      && (Enabled(c, s, Consume(r)) <==> loop && behind)
      && (Enabled(c, s, Wait(r)) <==> loop && !behind && active)
      && (Enabled(c, s, WakeUp(r)) <==> parked && (behind || !active))
      && (Enabled(c, s, TimeOut(r)) <==> parked)
      && (Enabled(c, s, Observe(r)) <==> loop && !behind && !active)
  {
    Reachable(c, events);
    WriterIsAfter(c, events);
    ReaderIsAfter(c, events, r);
    var s := Exec(c, events).value;
    assert ReaderInv(c, s, s.reader[r], s.cursor[r]);
    MayFrom(c, s, r, LatestOf(events, r));
  }

  lemma MayFrom(c: Config, s: State, r: nat, latest: Option<Event>)
    requires r in s.reader && r in s.cursor && s.cursor[r] <= s.count && LeftBy(latest, s.reader[r])
    requires latest.Some? ==> IsReaderEvent(latest.value)
    ensures
      var active, behind := s.writer == Active, s.cursor[r] < s.count;
      && (Enabled(c, s, Subscribe(r)) <==> latest.None?)
      && (Enabled(c, s, Consume(r)) <==> InLoop(latest) && behind)
      && (Enabled(c, s, Wait(r)) <==> InLoop(latest) && !behind && active)
      && (Enabled(c, s, WakeUp(r)) <==> IsParked(latest) && (behind || !active))
      && (Enabled(c, s, TimeOut(r)) <==> IsParked(latest))
      && (Enabled(c, s, Observe(r)) <==> InLoop(latest) && !behind && !active)
  {
  }

  /** What a reader that has caught up is told, exactly, in terms of what has happened: Ok after a full
      end; an error after a failure that the seam has seen, or a short end behind the shield; and
      otherwise nothing, which looks like an empty blob if nothing was sent and like a short one if
      something was. */
  lemma ToldIff(c: Config, events: seq<Event>, r: nat)
    requires Exec(c, events).Some? && Enabled(c, Exec(c, events).value, Observe(r))
    ensures
      var told := Apply(c, Exec(c, events).value, Observe(r)).reader[r];
      var failed := WriterAfter(events) == DoneError || WriterAfter(events) == DoneDropped;
      var refused := (failed && SeamObserves in events) || (WriterAfter(events) == DoneShort && c.shield);
      && (told == DoneOk <==> WriterAfter(events) == DoneFull)
      && (told == DoneErr <==> refused)
      && (told == SilentZero <==> WriterAfter(events) != DoneFull && !refused && Sent(events) == 0)
      && (told == SilentShort <==> WriterAfter(events) != DoneFull && !refused && Sent(events) > 0)
  {
    Reachable(c, events);
    WriterIsAfter(c, events);
  }

  // ----- no reader is left behind -----

  predicate Finished(x: Reader) {
    x in {DoneOk, DoneErr, SilentZero, SilentShort, TimedOut}
  }

  /** The steps reader `r` can still take once the writer is done. */
  function Rank(s: State, r: nat): nat
    requires r in s.reader && r in s.cursor
  {
    var left := if s.cursor[r] <= s.count then s.count - s.cursor[r] else 0;
    match s.reader[r]
    case Idle => s.count + 2
    case Subscribed => left + 1
    case Waiting => left + 2
    case _ => 0
  }

  lemma ReaderStepsEnd(c: Config, s: State, e: Event, r: nat)
    requires Inv(c, s) && Enabled(c, s, e) && s.writer != Active && r in c.readers
    ensures
      var t := Apply(c, s, e);
      && t.writer == s.writer && t.count == s.count
      && r in s.reader && r in s.cursor && r in t.reader && r in t.cursor
      && (if IsReaderEvent(e) && e.r == r then Rank(t, r) < Rank(s, r) else Rank(t, r) == Rank(s, r))
  {
    assert ReaderInv(c, s, s.reader[r], s.cursor[r]);
  }

  /** Once the writer is done, a reader that is subscribed or parked has a step of its own to take. */
  lemma NoEternalPark(c: Config, events: seq<Event>, r: nat) returns (e: Event)
    requires Exec(c, events).Some? && Exec(c, events).value.writer != Active
    requires r in Exec(c, events).value.reader && !Finished(Exec(c, events).value.reader[r])
    ensures Enabled(c, Exec(c, events).value, e) && IsReaderEvent(e) && e.r == r && !e.TimeOut?
  {
    Reachable(c, events);
    var s := Exec(c, events).value;
    assert ReaderInv(c, s, s.reader[r], s.cursor[r]);
    e :=
      if s.reader[r] == Idle then Subscribe(r)
      else if s.reader[r] == Waiting then WakeUp(r)
      else if s.cursor[r] < s.count then Consume(r)
      else Observe(r);
  }

  /** Once the writer is done, reader `r` takes at most `count + 2` more steps. */
  lemma {:induction false} ReaderRunsAreBounded(c: Config, before: seq<Event>, after: seq<Event>, r: nat)
    requires Exec(c, before).Some? && Exec(c, before).value.writer != Active && r in c.readers
    requires Exec(c, before + after).Some?
    ensures
      var s, t := Exec(c, before).value, Exec(c, before + after).value;
      && r in s.reader && r in s.cursor && r in t.reader && r in t.cursor && t.writer == s.writer
      && StepsOf(after, r) + Rank(t, r) <= Rank(s, r)
    decreases |after|
  {
    if after == [] {
      assert before + after == before;
      Reachable(c, before);
    } else {
      var n := |after| - 1;
      var s, t := LastStep(c, before, after, n);
      ReaderRunsAreBounded(c, before, after[..n], r);
      ReaderStepsEnd(c, s, after[n], r);
    }
  }

  lemma LastStep(c: Config, before: seq<Event>, after: seq<Event>, n: nat) returns (s: State, t: State)
    requires Exec(c, before + after).Some? && n == |after| - 1
    ensures Exec(c, before + after[..n]) == Some(s) && Exec(c, before + after) == Some(t)
    ensures Inv(c, s) && Enabled(c, s, after[n]) && t == Apply(c, s, after[n])
  {
    assert (before + after)[..|before + after| - 1] == before + after[..n];
    s, t := Exec(c, before + after[..n]).value, Exec(c, before + after).value;
    Reachable(c, before + after[..n]);
  }

  function StepsOf(events: seq<Event>, r: nat): nat {
    if events == [] then 0
    else
      var n := |events| - 1;
      StepsOf(events[..n], r) + if IsReaderEvent(events[n]) && events[n].r == r then 1 else 0
  }
}

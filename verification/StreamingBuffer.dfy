/**
The in-memory streaming blob of nativelink-util/src/streaming_blob.rs: one writer appends chunks
to a deque that is trimmed to a sliding window, while any number of readers follow it, each with
its own cursor, and park on a watch channel when they have caught up.

Every atomic load, every atomic update and every critical section of the source is a separate step
of the machine below, so that the steps of the writer and of the readers interleave freely.
Atomics are sequentially consistent.
*/
module StreamingBuffer {
  import opened Options
  import opened SeqLemmas

  type Chunk = seq<bv8>

  /** `digestSize` is the size the digest declares, `window` is `max_buffer_bytes`. */
  datatype Config = Config(digestSize: nat, window: nat)

  datatype Terminal = Running | Eof | Failed(error: string)

  /** Where the writer is inside `send`, `send_eof`, `send_error` or `drop`. */
  datatype WriterPc =
    | Idle
    | Calling(chunk: Chunk)   // inside `send`, which has seen no terminal state
    | LoadedTotal(chunk: Chunk, total: nat) // `bytes_written` loaded
    | Admitted(chunk: Chunk)  // expected size loaded and compared, not yet pushed
    | Pushed(size: nat)       // pushed onto the deque, `chunk_count` not yet raised
    | Counted(size: nat)      // `chunk_count` raised, `bytes_written` not yet
    | OverBudget              // about to take the write lock for eviction
    | Evicting(buffered: nat) // holds the write lock, at the head of the eviction loop
    | Popped(buffered: nat)   // holds the write lock, `earliest_chunk_idx` not yet raised
    | Notifying               // about to bump the watch version, then back to Idle
    | NotifyingEnd            // terminal state set, about to bump the watch version
    | Done

  /** What a call of `next_chunk` that ended the loop told; `size` is the expected size it was judged by. */
  datatype Outcome =
    | Complete(size: nat)     // Ok(empty): end of file
    | ShortWrite(bytes: nat, size: nat) // streaming_blob_silent_short
    | Overshoot(bytes: nat, size: nat)  // streaming_blob_silent_overshoot
    | FellBehind              // reader fell behind sliding window
    | WriterFailed(error: string)
    | DeadlineExceeded

  /** Where a reader is inside the loop of `next_chunk`. */
  datatype ReaderPc =
    | Top
    | LoadedEarliest(earliest: nat)
    | LoadedBytes(earliest: nat, bytes: nat)
    | LoadedSize(earliest: nat)
    | AwaitLock(earliest: nat)
    | CheckTerminal
    | Parked
    | Finished(outcome: Outcome) // the call has returned; the reader may be called again

  /** `received` lists the chunks returned so far, by all calls, `start` the cursor at construction. */
  datatype Reader = Reader(start: nat, cursor: nat, received: seq<Chunk>, seen: nat, pc: ReaderPc)

  /** `sized` is what `set_expected_size_on_store` recorded, if it was called. `sent` is a history
      variable: every chunk ever pushed, in order. */
  datatype State = State(
    deque: seq<Chunk>,
    chunkCount: nat,
    bytesWritten: nat,
    earliest: nat,
    version: nat,
    terminal: Terminal,
    sized: Option<nat>,
    writer: WriterPc,
    readers: map<nat, Reader>,
    sent: seq<Chunk>)

  datatype Event =
    | Send(chunk: Chunk) | LoadTotal | Admit(chunk: Chunk) | Reject | Push(chunk: Chunk)
    | CountChunk | AddBytes | LockForEviction | PopFront | BumpEarliest | StopEvicting
    | Notify | SendEof | SendError(error: string) | DropWriter | SetSize(size: nat)
    | Subscribe(r: nat) | Again(r: nat) | LoadEarliest(r: nat) | LoadBytes(r: nat) | LoadSize(r: nat) | LoadCount(r: nat)
    | LockedRead(r: nat) | ReadTerminal(r: nat) | Wake(r: nat) | TimeOut(r: nat)

  /** Total size of a list of chunks. */
  function Bytes(cs: seq<Chunk>): nat {
    if cs == [] then 0 else |cs[0]| + Bytes(cs[1..])
  }

  /** The byte stream a list of chunks stands for. */
  function Flatten(cs: seq<Chunk>): seq<bv8> {
    if cs == [] then [] else cs[0] + Flatten(cs[1..])
  }

  // ----- the machine -----

  function Init(): State {
    State([], 0, 0, 0, 0, Running, None, Idle, map[], [])
  }

  /** `expected_size_on_store()`: the recorded size, or else the size of the digest. */
  function Expected(cfg: Config, s: State): nat {
    if s.sized.Some? then s.sized.value else cfg.digestSize
  }

  predicate WriteLocked(s: State) {
    s.writer.Evicting? || s.writer.Popped?
  }

  predicate IsWriterEvent(e: Event) {
    e.Send? || e.LoadTotal? || e.Admit? || e.Reject? || e.Push? || e.CountChunk? || e.AddBytes? 
    || e.LockForEviction? || e.PopFront? || e.BumpEarliest? || e.StopEvicting? || e.Notify? || e.SendEof? || e.SendError? || e.DropWriter? || e.SetSize?
  }

  predicate Enabled(cfg: Config, s: State, e: Event) {
    match e
    case Send(_) => s.writer.Idle? && s.terminal.Running?
    case LoadTotal => s.writer.Calling?
    case Admit(c) => s.writer.LoadedTotal? && s.writer.chunk == c && s.writer.total + |c| <= Expected(cfg, s)
    case Reject => s.writer.LoadedTotal? && s.writer.total + |s.writer.chunk| > Expected(cfg, s)
    case Push(c) => s.writer == Admitted(c)
    case CountChunk => s.writer.Pushed?
    case AddBytes => s.writer.Counted?
    case LockForEviction => s.writer.OverBudget?
    case PopFront => s.writer.Evicting? && s.writer.buffered > cfg.window && s.deque != []
    case BumpEarliest => s.writer.Popped?
    case StopEvicting => s.writer.Evicting? && !(s.writer.buffered > cfg.window && s.deque != [])
    case Notify => s.writer.Notifying? || s.writer.NotifyingEnd?
    case SendEof => s.writer.Idle? && s.terminal.Running?
    case SendError(_) => s.writer.Idle? && s.terminal.Running?
    case DropWriter => s.writer.Idle? && s.terminal.Running?
    case SetSize(_) => true
    case Subscribe(r) => r !in s.readers
    case Again(r) => r in s.readers && s.readers[r].pc.Finished?
    case LoadEarliest(r) => r in s.readers && s.readers[r].pc.Top?
    case LoadBytes(r) => r in s.readers && s.readers[r].pc.LoadedEarliest?
    case LoadSize(r) => r in s.readers && s.readers[r].pc.LoadedBytes?
    case LoadCount(r) => r in s.readers && s.readers[r].pc.LoadedSize?
    case LockedRead(r) => r in s.readers && s.readers[r].pc.AwaitLock? && !WriteLocked(s)
    case ReadTerminal(r) => r in s.readers && s.readers[r].pc.CheckTerminal?
    case Wake(r) => r in s.readers && s.readers[r].pc.Parked? && s.readers[r].seen < s.version
    case TimeOut(r) => r in s.readers && s.readers[r].pc.Parked?
  }

  function ApplyWriter(cfg: Config, s: State, e: Event): State
    requires Enabled(cfg, s, e) && IsWriterEvent(e)
  {
    match e
    case Send(c) => s.(writer := Calling(c))
    case LoadTotal => s.(writer := LoadedTotal(s.writer.chunk, s.bytesWritten))
    case Admit(c) => s.(writer := Admitted(c))
    case Reject => s.(writer := Idle)
    case Push(c) => s.(deque := s.deque + [c], sent := s.sent + [c], writer := Pushed(|c|))
    case CountChunk => s.(chunkCount := s.chunkCount + 1, writer := Counted(s.writer.size))
    case AddBytes =>
      var total := s.bytesWritten + s.writer.size;
      s.(bytesWritten := total, writer := if total > cfg.window then OverBudget else Notifying)
    case LockForEviction => s.(writer := Evicting(Bytes(s.deque)))
    case PopFront =>
      s.(deque := s.deque[1..],
         writer := Popped(if |s.deque[0]| <= s.writer.buffered then s.writer.buffered - |s.deque[0]| else 0))
    case BumpEarliest => s.(earliest := s.earliest + 1, writer := Evicting(s.writer.buffered))
    case StopEvicting => s.(writer := Notifying)
    case Notify => s.(version := s.version + 1, writer := if s.writer.Notifying? then Idle else Done)
    case SendEof => s.(terminal := Eof, writer := NotifyingEnd)
    case SendError(err) => s.(terminal := Failed(err), writer := NotifyingEnd)
    case DropWriter => s.(terminal := Failed("writer dropped without sending EOF"), writer := NotifyingEnd)
    case SetSize(n) => s.(sized := if s.sized.Some? then s.sized else Some(n))
  }

  /** `resolve_deque_idx`: the index into the deque, from the value read under the lock. */
  function ResolveDequeIdx(cursor: nat, postLockEarliest: nat): Option<nat> {
    if cursor < postLockEarliest then None else Some(cursor - postLockEarliest)
  }

  /** What the terminal check of `next_chunk` concludes. Count and bytes do not change any more once
      there is a terminal state, so that its loads can be taken together. */
  function Conclude(cfg: Config, s: State, rd: Reader): ReaderPc {
    if s.terminal.Running? then Parked
    else if rd.cursor < s.chunkCount then Top
    else if s.terminal.Failed? then Finished(WriterFailed(s.terminal.error))
    else if s.bytesWritten < Expected(cfg, s) then Finished(ShortWrite(s.bytesWritten, Expected(cfg, s)))
    else Finished(Complete(Expected(cfg, s)))
  }

  function StepReader(cfg: Config, s: State, rd: Reader, e: Event): Reader
    requires !IsWriterEvent(e) && !e.Subscribe?
    requires Enabled(cfg, s, e) && s.readers[e.r] == rd
  {
    match e
    case Again(_) => rd.(pc := Top)
    case LoadEarliest(_) =>
      rd.(pc := if rd.cursor < s.earliest then Finished(FellBehind) else LoadedEarliest(s.earliest))
    case LoadBytes(_) =>
      rd.(pc := LoadedBytes(rd.pc.earliest, s.bytesWritten))
    case LoadSize(_) =>
      rd.(pc := if rd.pc.bytes > Expected(cfg, s) then Finished(Overshoot(rd.pc.bytes, Expected(cfg, s))) else LoadedSize(rd.pc.earliest))
    case LoadCount(_) =>
      rd.(pc := if rd.cursor < s.chunkCount then AwaitLock(rd.pc.earliest) else CheckTerminal)
    case LockedRead(_) =>
      (match ResolveDequeIdx(rd.cursor, s.earliest)
       case None => rd.(pc := Top)
       case Some(i) =>
         if i < |s.deque| then
           rd.(cursor := rd.cursor + 1, received := rd.received + [s.deque[i]], pc := Top)
         else
           rd.(pc := Top))
    case ReadTerminal(_) => rd.(pc := Conclude(cfg, s, rd))
    case Wake(_) => rd.(seen := s.version, pc := Top)
    case TimeOut(_) => rd.(pc := Finished(DeadlineExceeded))
  }

  function Apply(cfg: Config, s: State, e: Event): State
    requires Enabled(cfg, s, e)
  {
    if IsWriterEvent(e) then ApplyWriter(cfg, s, e)
    else if e.Subscribe? then
      s.(readers := s.readers[e.r := Reader(s.earliest, s.earliest, [], 0, Top)])
    else
      s.(readers := s.readers[e.r := StepReader(cfg, s, s.readers[e.r], e)])
  }

  /** The state after a list of events, or None when one of them was not enabled. */
  function Exec(cfg: Config, events: seq<Event>): Option<State> {
    if events == [] then Some(Init())
    else
      var n := |events| - 1;
      match Exec(cfg, events[..n])
      case None => None
      case Some(s) => if Enabled(cfg, s, events[n]) then Some(Apply(cfg, s, events[n])) else None
  }

  // ----- the invariant -----

  /** Number of chunks removed from the front of the deque. */
  function Base(s: State): nat {
    s.earliest + if s.writer.Popped? then 1 else 0
  }

  /** Size of a chunk admitted but not yet pushed. */
  function Unpushed(s: State): nat {
    if s.writer.Admitted? then |s.writer.chunk| else 0
  }

  /** Bytes pushed but not yet added to `bytes_written`. */
  function Uncounted(s: State): nat {
    if s.writer.Pushed? || s.writer.Counted? then s.writer.size else 0
  }

  ghost predicate WriterOk(cfg: Config, s: State) {
    && Base(s) <= |s.sent|
    && s.deque == s.sent[Base(s)..]
    && |s.sent| == s.chunkCount + (if s.writer.Pushed? then 1 else 0)
    && Bytes(s.sent) == s.bytesWritten + Uncounted(s)
    && (s.sized.None? ==> Bytes(s.sent) + Unpushed(s) <= cfg.digestSize)
    && (s.writer.LoadedTotal? ==> s.writer.total == s.bytesWritten)
    && s.earliest <= s.chunkCount
    && (s.writer.Pushed? ==> s.deque != [])
    && (s.terminal.Running? <==> !(s.writer.NotifyingEnd? || s.writer.Done?))
  }

  /** The window bound: outside `send`, at most `window` bytes are retained. */
  ghost predicate WindowOk(cfg: Config, s: State) {
    match s.writer
    case Pushed(_) => true
    case Counted(_) => true
    case OverBudget => true
    case Evicting(b) => b == Bytes(s.deque)
    case Popped(b) => b == Bytes(s.deque)
    case _ => Bytes(s.deque) <= cfg.window
  }

  /** The last chunk evicted had to go: with it, what is kept would not fit into the window. */
  ghost predicate EvictionOk(cfg: Config, s: State) {
    0 < Base(s) <= |s.sent| ==> Bytes(s.sent[Base(s) - 1..]) > cfg.window
  }

  /** The writer has nothing to announce: it is between calls, or has not pushed its chunk yet. */
  predicate Quiet(s: State) {
    s.writer.Idle? || s.writer.Calling? || s.writer.LoadedTotal? || s.writer.Admitted? || s.writer.Done?
  }

  /** A bump of the watch version is still to come, or has come since the reader last looked. */
  predicate WakeupDue(s: State, rd: Reader) {
    rd.seen < s.version || !Quiet(s)
  }

  ghost predicate ReaderOk(cfg: Config, s: State, rd: Reader) {
    && rd.start <= rd.cursor <= s.chunkCount
    && s.chunkCount <= |s.sent|
    && rd.received == s.sent[rd.start..rd.cursor]
    && rd.seen <= s.version
    && PcOk(cfg, s, rd)
  }

  ghost predicate PcOk(cfg: Config, s: State, rd: Reader) {
    match rd.pc
    case Top => true
    case LoadedEarliest(earliest) => earliest <= s.earliest && earliest <= rd.cursor
    case LoadedBytes(earliest, bytes) => earliest <= s.earliest && earliest <= rd.cursor && bytes <= Bytes(s.sent)
    case LoadedSize(earliest) => earliest <= s.earliest && earliest <= rd.cursor
    case AwaitLock(earliest) => earliest <= s.earliest && earliest <= rd.cursor < s.chunkCount
    case CheckTerminal => rd.cursor < s.chunkCount ==> WakeupDue(s, rd)
    case Parked => rd.cursor < s.chunkCount || !s.terminal.Running? ==> WakeupDue(s, rd)
    case Finished(outcome) => OutcomeOk(cfg, s, rd, outcome)
  }

  /** A size that a reader may have been judged by. */
  predicate InForce(cfg: Config, s: State, size: nat) {
    size == cfg.digestSize || s.sized == Some(size)
  }

  ghost predicate OutcomeOk(cfg: Config, s: State, rd: Reader, outcome: Outcome) {
    match outcome
    case Complete(size) => s.terminal.Eof? && rd.cursor == |s.sent| && size <= Bytes(s.sent) && InForce(cfg, s, size)
    case ShortWrite(bytes, size) =>
      s.terminal.Eof? && rd.cursor == |s.sent| && bytes == Bytes(s.sent) < size && InForce(cfg, s, size)
    case Overshoot(bytes, size) => size < bytes <= Bytes(s.sent) && s.sized == Some(size)
    case FellBehind => rd.cursor < s.earliest
    case WriterFailed(err) => s.terminal == Failed(err) && rd.cursor == |s.sent|
    case DeadlineExceeded => true
  }

  ghost predicate Inv(cfg: Config, s: State) {
    && WriterInv(cfg, s)
    && (forall r :: r in s.readers ==> ReaderOk(cfg, s, s.readers[r]))
  }

  lemma {:induction false} BytesConcat(a: seq<Chunk>, b: seq<Chunk>)
    ensures Bytes(a + b) == Bytes(a) + Bytes(b)
  {
    if a == [] {
      assert a + b == b;
    } else {
      assert (a + b)[1..] == a[1..] + b;
      BytesConcat(a[1..], b);
    }
  }

  lemma {:induction false} FlattenConcat(a: seq<Chunk>, b: seq<Chunk>)
    ensures Flatten(a + b) == Flatten(a) + Flatten(b)
  {
    if a == [] {
      assert a + b == b;
    } else {
      assert (a + b)[1..] == a[1..] + b;
      FlattenConcat(a[1..], b);
    }
  }

  lemma {:induction false} FlattenSize(cs: seq<Chunk>)
    ensures |Flatten(cs)| == Bytes(cs)
  {
    if cs != [] { FlattenSize(cs[1..]); }
  }

  ghost predicate WriterInv(cfg: Config, s: State) {
    WriterOk(cfg, s) && WindowOk(cfg, s) && EvictionOk(cfg, s)
  }

  lemma PushKeepsWriter(cfg: Config, s: State, c: Chunk)
    requires WriterInv(cfg, s) && Enabled(cfg, s, Push(c))
    ensures WriterInv(cfg, ApplyWriter(cfg, s, Push(c)))
  {
    BytesConcat(s.sent, [c]);
    assert Bytes([c]) == |c|;
    DropConcat(s.sent, [c], Base(s));
    if Base(s) > 0 {
      DropConcat(s.sent, [c], Base(s) - 1);
      BytesConcat(s.sent[Base(s) - 1..], [c]);
    }
  }

  lemma AddBytesKeepsWriter(cfg: Config, s: State)
    requires WriterOk(cfg, s) && Enabled(cfg, s, AddBytes)
    ensures WriterOk(cfg, ApplyWriter(cfg, s, AddBytes)) && WindowOk(cfg, ApplyWriter(cfg, s, AddBytes))
  {
    assert s.sent == s.sent[..Base(s)] + s.deque;
    BytesConcat(s.sent[..Base(s)], s.deque);
  }

  lemma PopFrontKeepsWriter(cfg: Config, s: State)
    requires WriterInv(cfg, s) && Enabled(cfg, s, PopFront)
    ensures WriterInv(cfg, ApplyWriter(cfg, s, PopFront))
  {
    CutAgain(s.sent, Base(s), 1);
  }

  /** A step that only moves the writer on, or changes what is not in the buffer. */
  lemma OtherStepKeepsWriter(cfg: Config, s: State, e: Event)
    requires WriterOk(cfg, s) && WindowOk(cfg, s) && Enabled(cfg, s, e) && IsWriterEvent(e)
    requires !EntersCall(e) && !e.Push? && !e.AddBytes? && !e.PopFront?
    ensures WriterOk(cfg, ApplyWriter(cfg, s, e)) && WindowOk(cfg, ApplyWriter(cfg, s, e))
  {
  }

  lemma OtherStepKeepsEviction(cfg: Config, s: State, e: Event)
    requires EvictionOk(cfg, s) && Enabled(cfg, s, e) && IsWriterEvent(e)
    requires !EntersCall(e) && !e.Push? && !e.PopFront?
    ensures EvictionOk(cfg, ApplyWriter(cfg, s, e))
  {
    SameBase(cfg, s, e);
  }

  lemma SameBase(cfg: Config, s: State, e: Event)
    requires Enabled(cfg, s, e) && IsWriterEvent(e) && !EntersCall(e) && !e.Push? && !e.PopFront?
    ensures Base(ApplyWriter(cfg, s, e)) == Base(s) && ApplyWriter(cfg, s, e).sent == s.sent
  {
  }

  predicate EntersCall(e: Event) {
    e.Send? || e.LoadTotal? || e.Admit? || e.Reject? || e.SetSize?
  }

  /** The steps of `send` before the push, and recording the size. */
  lemma EntryKeepsWriter(cfg: Config, s: State, e: Event)
    requires WriterInv(cfg, s) && Enabled(cfg, s, e) && EntersCall(e)
    ensures WriterInv(cfg, ApplyWriter(cfg, s, e))
  {
  }

  lemma WriterStepKeepsWriter(cfg: Config, s: State, e: Event)
    requires WriterInv(cfg, s) && Enabled(cfg, s, e) && IsWriterEvent(e)
    ensures WriterInv(cfg, ApplyWriter(cfg, s, e))
  {
    if e.Push? {
      PushKeepsWriter(cfg, s, e.chunk);
    } else if e.AddBytes? {
      AddBytesKeepsWriter(cfg, s);
      OtherStepKeepsEviction(cfg, s, e);
    } else if e.PopFront? {
      PopFrontKeepsWriter(cfg, s);
    } else if EntersCall(e) {
      EntryKeepsWriter(cfg, s, e);
    } else {
      OtherStepKeepsWriter(cfg, s, e);
      OtherStepKeepsEviction(cfg, s, e);
    }
  }

  lemma PushKeepsReader(cfg: Config, s: State, c: Chunk, rd: Reader)
    requires WriterOk(cfg, s) && ReaderOk(cfg, s, rd) && Enabled(cfg, s, Push(c))
    ensures ReaderOk(cfg, ApplyWriter(cfg, s, Push(c)), rd)
  {
    BytesConcat(s.sent, [c]);
    assert (s.sent + [c])[rd.start..rd.cursor] == s.sent[rd.start..rd.cursor];
  }

  lemma EntryKeepsReader(cfg: Config, s: State, e: Event, rd: Reader)
    requires ReaderOk(cfg, s, rd) && Enabled(cfg, s, e) && EntersCall(e)
    ensures ReaderOk(cfg, ApplyWriter(cfg, s, e), rd)
  {
  }

  lemma WriterStepKeepsReader(cfg: Config, s: State, e: Event, rd: Reader)
    requires WriterOk(cfg, s) && ReaderOk(cfg, s, rd)
    requires Enabled(cfg, s, e) && IsWriterEvent(e)
    ensures ReaderOk(cfg, ApplyWriter(cfg, s, e), rd)
  {
    if e.Push? {
      PushKeepsReader(cfg, s, e.chunk, rd);
    } else if EntersCall(e) {
      EntryKeepsReader(cfg, s, e, rd);
    }
  }

  lemma LockedReadKeepsReader(cfg: Config, s: State, r: nat)
    requires WriterOk(cfg, s) && Enabled(cfg, s, LockedRead(r)) && ReaderOk(cfg, s, s.readers[r])
    ensures ReaderOk(cfg, s, StepReader(cfg, s, s.readers[r], LockedRead(r)))
  {
    var rd := s.readers[r];
    if s.earliest <= rd.cursor {
      assert s.deque[rd.cursor - s.earliest] == s.sent[rd.cursor];
      SliceSnoc(s.sent, rd.start, rd.cursor);
    }
  }

  lemma ReadTerminalKeepsReader(cfg: Config, s: State, r: nat)
    requires WriterOk(cfg, s) && Enabled(cfg, s, ReadTerminal(r)) && ReaderOk(cfg, s, s.readers[r])
    ensures ReaderOk(cfg, s, StepReader(cfg, s, s.readers[r], ReadTerminal(r)))
  {
  }

  lemma ReaderStepKeepsReader(cfg: Config, s: State, e: Event)
    requires WriterOk(cfg, s)
    requires !IsWriterEvent(e) && !e.Subscribe? && Enabled(cfg, s, e)
    requires ReaderOk(cfg, s, s.readers[e.r])
    ensures ReaderOk(cfg, s, StepReader(cfg, s, s.readers[e.r], e))
  {
    if e.LockedRead? {
      LockedReadKeepsReader(cfg, s, e.r);
    } else if e.ReadTerminal? {
      ReadTerminalKeepsReader(cfg, s, e.r);
    }
  }

  lemma WriterStepKeepsInv(cfg: Config, s: State, e: Event)
    requires Inv(cfg, s) && Enabled(cfg, s, e) && IsWriterEvent(e)
    ensures Inv(cfg, ApplyWriter(cfg, s, e))
  {
    var t := ApplyWriter(cfg, s, e);
    WriterStepKeepsWriter(cfg, s, e);
    forall r | r in t.readers ensures ReaderOk(cfg, t, t.readers[r]) {
      WriterStepKeepsReader(cfg, s, e, s.readers[r]);
    }
  }

  /** Replacing one reader by a good one keeps the invariant. */
  lemma ReaderUpdateKeepsInv(cfg: Config, s: State, r: nat, rd: Reader)
    requires Inv(cfg, s) && ReaderOk(cfg, s, rd)
    ensures Inv(cfg, s.(readers := s.readers[r := rd]))
  {
    var t := s.(readers := s.readers[r := rd]);
    forall q | q in t.readers ensures ReaderOk(cfg, t, t.readers[q]) {
      ReaderOkIgnoresReaders(cfg, s, t, t.readers[q]);
    }
  }

  lemma ReaderOkIgnoresReaders(cfg: Config, s: State, t: State, rd: Reader)
    requires t == s.(readers := t.readers) && ReaderOk(cfg, s, rd)
    ensures ReaderOk(cfg, t, rd)
  {
  }

  lemma StepKeepsInv(cfg: Config, s: State, e: Event)
    requires Inv(cfg, s) && Enabled(cfg, s, e)
    ensures Inv(cfg, Apply(cfg, s, e))
  {
    if IsWriterEvent(e) {
      WriterStepKeepsInv(cfg, s, e);
    } else if e.Subscribe? {
      ReaderUpdateKeepsInv(cfg, s, e.r, Reader(s.earliest, s.earliest, [], 0, Top));
    } else {
      ReaderStepKeepsReader(cfg, s, e);
      ReaderUpdateKeepsInv(cfg, s, e.r, StepReader(cfg, s, s.readers[e.r], e));
    }
  }

  /** Every state of every run satisfies the invariant. */
  lemma {:induction false} Reachable(cfg: Config, events: seq<Event>)
    requires Exec(cfg, events).Some?
    ensures Inv(cfg, Exec(cfg, events).value)
  {
    forall s, e | Inv(cfg, s) && Enabled(cfg, s, e) ensures Inv(cfg, Apply(cfg, s, e)) { StepKeepsInv(cfg, s, e); }
    ExecKeeps(cfg, events, s => Inv(cfg, s));
  }

  /** What every step keeps holds at the end of every run. */
  lemma {:induction false} ExecKeeps(cfg: Config, events: seq<Event>, keeps: State -> bool)
    requires Exec(cfg, events).Some? && keeps(Init())
    requires forall s, e :: keeps(s) && Enabled(cfg, s, e) ==> keeps(Apply(cfg, s, e))
    ensures keeps(Exec(cfg, events).value)
  {
    if events != [] { ExecKeeps(cfg, events[..|events| - 1], keeps); }
  }

  // ----- what every run guarantees -----

  /** The chunks a run handed to `send` and saw pushed. */
  function Sends(events: seq<Event>): seq<Chunk> {
    if events == [] then []
    else
      var n := |events| - 1;
      Sends(events[..n]) + if events[n].Push? then [events[n].chunk] else []
  }

  /** The chunks that passed the admission test of `send`. */
  function Admits(events: seq<Event>): seq<Chunk> {
    if events == [] then []
    else
      var n := |events| - 1;
      Admits(events[..n]) + if events[n].Admit? then [events[n].chunk] else []
  }

  lemma {:induction false} SentIsWhatWasSent(cfg: Config, events: seq<Event>)
    requires Exec(cfg, events).Some?
    ensures Exec(cfg, events).value.sent == Sends(events)
  {
    if events != [] {
      var n := |events| - 1;
      SentIsWhatWasSent(cfg, events[..n]);
      SentStep(cfg, Exec(cfg, events[..n]).value, events[n]);
    }
  }

  lemma SentStep(cfg: Config, s: State, e: Event)
    requires Enabled(cfg, s, e)
    ensures Apply(cfg, s, e).sent == s.sent + if e.Push? then [e.chunk] else []
  {
  }

  /** No reader ever skips, repeats or reorders a byte: what it was given continues the stream
      exactly where it joined. */
  lemma ReadersFollowTheStream(cfg: Config, events: seq<Event>, r: nat)
    requires Exec(cfg, events).Some? && r in Exec(cfg, events).value.readers
    ensures
      var rd := Exec(cfg, events).value.readers[r];
      && rd.start <= rd.cursor <= |Sends(events)|
      && Flatten(Sends(events)[..rd.start]) + Flatten(rd.received) == Flatten(Sends(events)[..rd.cursor])
      && Flatten(Sends(events)[..rd.cursor]) <= Flatten(Sends(events))
  {
    Reachable(cfg, events);
    SentIsWhatWasSent(cfg, events);
    var s := Exec(cfg, events).value;
    assert ReaderOk(cfg, s, s.readers[r]);
    FlattenSlices(Sends(events), s.readers[r].start, s.readers[r].cursor);
  }

  lemma FlattenSlices(cs: seq<Chunk>, i: nat, j: nat)
    requires i <= j <= |cs|
    ensures Flatten(cs[..i]) + Flatten(cs[i..j]) == Flatten(cs[..j]) <= Flatten(cs)
  {
    SplitAt(cs, j);
    FlattenConcat(cs[..j], cs[j..]);
    SplitTake(cs, i, j);
    FlattenConcat(cs[..i], cs[i..j]);
  }

  // ----- a call of send -----

  /** The chunk handed to the latest call of `send`. */
  function Handed(events: seq<Event>): Option<Chunk> {
    if events == [] then None
    else
      var n := |events| - 1;
      if events[n].Send? then Some(events[n].chunk) else Handed(events[..n])
  }

  /** The writer is in a call of `send` that has not pushed its chunk. */
  predicate HasChunk(w: WriterPc) {
    w.Calling? || w.LoadedTotal? || w.Admitted?
  }

  lemma {:induction false} ChunkInCall(cfg: Config, events: seq<Event>)
    requires Exec(cfg, events).Some? && HasChunk(Exec(cfg, events).value.writer)
    ensures Handed(events) == Some(Exec(cfg, events).value.writer.chunk)
  {
    var n := |events| - 1;
    ChunkStep(cfg, Exec(cfg, events[..n]).value, events[n]);
    if !events[n].Send? { ChunkInCall(cfg, events[..n]); }
  }

  lemma ChunkStep(cfg: Config, s: State, e: Event)
    requires Enabled(cfg, s, e) && HasChunk(Apply(cfg, s, e).writer)
    ensures
      if e.Send? then Apply(cfg, s, e).writer.chunk == e.chunk
      else HasChunk(s.writer) && Apply(cfg, s, e).writer.chunk == s.writer.chunk
  {
  }

  /** What is pushed is what was handed in; and once `bytes_written` is loaded, the chunk is admitted if
      it fits what is expected, and rejected if not. */
  lemma AdmittedIffItFits(cfg: Config, events: seq<Event>, c: Chunk)
    requires Exec(cfg, events).Some?
    ensures
      var s := Exec(cfg, events).value;
      && (Enabled(cfg, s, Push(c)) ==> Handed(events) == Some(c))
      && (Enabled(cfg, s, Admit(c)) <==>
            s.writer.LoadedTotal? && Handed(events) == Some(c) && |Flatten(Sends(events) + [c])| <= Expected(cfg, s))
      && (Enabled(cfg, s, Reject) <==>
            s.writer.LoadedTotal? && Handed(events).Some? && |Flatten(Sends(events) + [Handed(events).value])| > Expected(cfg, s))
  {
    var s := Exec(cfg, events).value;
    Reachable(cfg, events);
    SentIsWhatWasSent(cfg, events);
    if HasChunk(s.writer) {
      ChunkInCall(cfg, events);
      FlattenSize(Sends(events) + [s.writer.chunk]);
      BytesSnoc(Sends(events), s.writer.chunk);
    }
  }

  /** The steps a call of the writer can still take. */
  function CallRank(s: State): nat {
    match s.writer
    case Idle => 0
    case Calling(_) => 10 + 2 * |s.deque|
    case LoadedTotal(_, _) => 9 + 2 * |s.deque|
    case Admitted(_) => 8 + 2 * |s.deque|
    case Pushed(_) => 5 + 2 * |s.deque|
    case Counted(_) => 4 + 2 * |s.deque|
    case OverBudget => 3 + 2 * |s.deque|
    case Evicting(_) => 2 + 2 * |s.deque|
    case Popped(_) => 3 + 2 * |s.deque|
    case Notifying => 1
    case NotifyingEnd => 1
    case Done => 0
  }

  predicate StartsCall(e: Event) {
    e.Send? || e.SendEof? || e.SendError? || e.DropWriter?
  }

  /** A step of the call that the writer is in. */
  predicate StepOfCall(e: Event) {
    IsWriterEvent(e) && !StartsCall(e) && !e.SetSize?
  }

  function StepsOfCall(events: seq<Event>): nat {
    if events == [] then 0
    else
      var n := |events| - 1;
      StepsOfCall(events[..n]) + if StepOfCall(events[n]) then 1 else 0
  }

  /** Readers never block the writer: inside a call it always has a step to take. */
  lemma WriterNeverBlocks(cfg: Config, s: State) returns (e: Event)
    requires !s.writer.Idle? && !s.writer.Done?
    ensures Enabled(cfg, s, e) && StepOfCall(e)
  {
    match s.writer
    case Calling(_) => e := LoadTotal;
    case LoadedTotal(c, total) => e := if total + |c| <= Expected(cfg, s) then Admit(c) else Reject;
    case Admitted(c) => e := Push(c);
    case Pushed(_) => e := CountChunk;
    case Counted(_) => e := AddBytes;
    case OverBudget => e := LockForEviction;
    case Evicting(b) => e := if b > cfg.window && s.deque != [] then PopFront else StopEvicting;
    case Popped(_) => e := BumpEarliest;
    case Notifying => e := Notify;
    case NotifyingEnd => e := Notify;
  }

  lemma CallStep(cfg: Config, s: State, e: Event)
    requires Enabled(cfg, s, e) && !StartsCall(e)
    ensures if StepOfCall(e) then CallRank(Apply(cfg, s, e)) < CallRank(s) else CallRank(Apply(cfg, s, e)) == CallRank(s)
  {
  }

  /** And the call ends: after at most two steps per chunk held, and ten. */
  lemma {:induction false} CallsAreShort(cfg: Config, before: seq<Event>, after: seq<Event>)
    requires Exec(cfg, before).Some? && Exec(cfg, before + after).Some?
    requires forall i :: 0 <= i < |after| ==> !StartsCall(after[i])
    ensures
      var s, t := Exec(cfg, before).value, Exec(cfg, before + after).value;
      StepsOfCall(after) + CallRank(t) <= CallRank(s) <= 2 * |s.deque| + 10
    decreases |after|
  {
    if after == [] {
      assert before + after == before;
    } else {
      var n := |after| - 1;
      ExecSplit(cfg, before, after);
      CallsAreShort(cfg, before, after[..n]);
      CallStep(cfg, Exec(cfg, before + after[..n]).value, after[n]);
    }
  }

  // ----- the expected size -----

  /** The size recorded by the first call of `set_expected_size_on_store`; later calls do nothing. */
  function SizeSet(events: seq<Event>): Option<nat> {
    if events == [] then None
    else
      var n := |events| - 1;
      var before := SizeSet(events[..n]);
      if before.None? && events[n].SetSize? then Some(events[n].size) else before
  }

  /** The size was recorded when more than that had been admitted already. */
  predicate Oversized(events: seq<Event>) {
    events != [] &&
    var n := |events| - 1;
    || Oversized(events[..n])
    || (events[n].SetSize? && SizeSet(events[..n]).None? && Bytes(Admits(events[..n])) > events[n].size)
  }

  /** What was admitted is what was sent, and the chunk that the writer is about to push. */
  lemma {:induction false} AdmittedAreSent(cfg: Config, events: seq<Event>)
    requires Exec(cfg, events).Some?
    ensures Admits(events) == Sends(events) + InHand(Exec(cfg, events).value)
  {
    if events != [] {
      var n := |events| - 1;
      AdmittedAreSent(cfg, events[..n]);
      HandStep(cfg, Exec(cfg, events[..n]).value, events[n], Admits(events[..n]), Sends(events[..n]));
    }
  }

  /** The chunk that the writer has admitted and not pushed. */
  function InHand(s: State): seq<Chunk> {
    if s.writer.Admitted? then [s.writer.chunk] else []
  }

  lemma HandStep(cfg: Config, s: State, e: Event, admitted: seq<Chunk>, sent: seq<Chunk>)
    requires Enabled(cfg, s, e) && admitted == sent + InHand(s)
    ensures
      admitted + (if e.Admit? then [e.chunk] else []) ==
      sent + (if e.Push? then [e.chunk] else []) + InHand(Apply(cfg, s, e))
  {
  }

  lemma AdmittedBytes(cfg: Config, events: seq<Event>)
    requires Exec(cfg, events).Some?
    ensures
      var s := Exec(cfg, events).value;
      && s.sent == Sends(events) && WriterOk(cfg, s)
      && Bytes(Admits(events)) == Bytes(Sends(events)) + Unpushed(s)
  {
    Reachable(cfg, events);
    SentIsWhatWasSent(cfg, events);
    AdmittedAreSent(cfg, events);
    var s := Exec(cfg, events).value;
    if s.writer.Admitted? { BytesSnoc(Sends(events), s.writer.chunk); } else { assert Sends(events) + [] == Sends(events); }
  }

  lemma BytesSnoc(cs: seq<Chunk>, c: Chunk)
    ensures Bytes(cs + [c]) == Bytes(cs) + |c|
  {
    BytesConcat(cs, [c]);
    assert Bytes([c]) == |c|;
  }

  /** More is admitted than is expected exactly when the size was recorded too late and too small. */
  lemma {:induction false} OversizedIffOver(cfg: Config, events: seq<Event>)
    requires Exec(cfg, events).Some?
    ensures Exec(cfg, events).value.sized == SizeSet(events)
    ensures Bytes(Admits(events)) > Expected(cfg, Exec(cfg, events).value) <==> Oversized(events)
  {
    if events != [] {
      var n := |events| - 1;
      OversizedIffOver(cfg, events[..n]);
      AdmittedBytes(cfg, events[..n]);
      SizeStep(cfg, Exec(cfg, events[..n]).value, events[n]);
      OverStep(cfg, Exec(cfg, events[..n]).value, events[n], Admits(events[..n]), Exec(cfg, events).value);
    }
  }

  lemma SizeStep(cfg: Config, s: State, e: Event)
    requires Enabled(cfg, s, e)
    ensures Apply(cfg, s, e).sized == if e.SetSize? && s.sized.None? then Some(e.size) else s.sized
  {
    if !IsWriterEvent(e) { ReaderEvents(cfg, s, e); }
  }

  lemma OverStep(cfg: Config, s: State, e: Event, admitted: seq<Chunk>, t: State)
    requires Enabled(cfg, s, e) && WriterOk(cfg, s) && Bytes(admitted) == Bytes(s.sent) + Unpushed(s)
    requires t.sized == if e.SetSize? && s.sized.None? then Some(e.size) else s.sized
    ensures
      var now := admitted + if e.Admit? then [e.chunk] else [];
      Bytes(now) > Expected(cfg, t) <==>
      Bytes(admitted) > Expected(cfg, s) || (e.SetSize? && s.sized.None? && Bytes(admitted) > e.size)
  {
    if e.Admit? { BytesSnoc(admitted, e.chunk); } else { assert admitted + [] == admitted; }
  }

  /** The size can be recorded at any time, and counts the first time. */
  lemma SizeCountsOnce(cfg: Config, events: seq<Event>, s: State, n: nat) returns (more: seq<Event>, t: State)
    requires Exec(cfg, events) == Some(s)
    ensures more == events + [SetSize(n)] && Exec(cfg, more) == Some(t)
    ensures t == s.(sized := if SizeSet(events).Some? then SizeSet(events) else Some(n))
  {
    OversizedIffOver(cfg, events);
    more, t := Extend(cfg, events, s, SetSize(n));
  }

  /** The last chunk counts as admitted although it is not sent yet: recorded between its admission and
      its push, a size below it makes for an overshoot, with nothing sent when it was recorded. */
  lemma AdmissionRaceHappens(cfg: Config, c: Chunk, n: nat) returns (events: seq<Event>, t: State)
    requires n < |c| <= cfg.digestSize
    ensures events == [] + [Send(c)] + [LoadTotal] + [Admit(c)] + [SetSize(n)] + [Push(c)] + [CountChunk] + [AddBytes]
                      + [Subscribe(0)] + [LoadEarliest(0)] + [LoadBytes(0)] + [LoadSize(0)]
    ensures Exec(cfg, events) == Some(t) && 0 in t.readers && t.readers[0].pc == Finished(Overshoot(|c|, n))
  {
    var s: State;
    events, s := SizeBeforePush(cfg, c, n);
    events, t := JoinAndLoad(cfg, events, s);
  }

  lemma SizeBeforePush(cfg: Config, c: Chunk, n: nat) returns (events: seq<Event>, s: State)
    requires |c| <= cfg.digestSize
    ensures events == [] + [Send(c)] + [LoadTotal] + [Admit(c)] + [SetSize(n)] + [Push(c)] + [CountChunk] + [AddBytes]
    ensures Exec(cfg, events) == Some(s)
    ensures s.bytesWritten == |c| && s.sized == Some(n) && s.earliest == 0 && s.readers == map[]
  {
    events, s := AdmitFirst(cfg, [], Init(), c);
    events, s := Extend(cfg, events, s, SetSize(n));
    events, s := PushAndCount(cfg, events, s, c);
  }

  lemma JoinAndLoad(cfg: Config, events: seq<Event>, s: State) returns (more: seq<Event>, t: State)
    requires Exec(cfg, events) == Some(s) && 0 !in s.readers
    ensures more == events + [Subscribe(0)] + [LoadEarliest(0)] + [LoadBytes(0)] + [LoadSize(0)] && Exec(cfg, more) == Some(t)
    ensures 0 in t.readers && t.readers[0].pc == Checked(cfg, s)
  {
    more, t := Extend(cfg, events, s, Subscribe(0));
    more, t := LoadThrice(cfg, more, t, 0);
  }

  /** A call of `send` up to where its chunk is admitted. */
  lemma AdmitFirst(cfg: Config, events: seq<Event>, s: State, c: Chunk) returns (more: seq<Event>, t: State)
    requires Exec(cfg, events) == Some(s) && Enabled(cfg, s, Send(c)) && s.bytesWritten + |c| <= Expected(cfg, s)
    ensures more == events + [Send(c)] + [LoadTotal] + [Admit(c)] && Exec(cfg, more) == Some(t)
    ensures t == s.(writer := Admitted(c))
  {
    more, t := Extend(cfg, events, s, Send(c));
    more, t := Extend(cfg, more, t, LoadTotal);
    more, t := Extend(cfg, more, t, Admit(c));
  }

  /** The rest of the call, up to where its chunk is counted. */
  lemma PushAndCount(cfg: Config, events: seq<Event>, s: State, c: Chunk) returns (more: seq<Event>, t: State)
    requires Exec(cfg, events) == Some(s) && s.writer == Admitted(c)
    ensures more == events + [Push(c)] + [CountChunk] + [AddBytes] && Exec(cfg, more) == Some(t)
    ensures
      var total := s.bytesWritten + |c|;
      t == s.(deque := s.deque + [c], sent := s.sent + [c], chunkCount := s.chunkCount + 1, bytesWritten := total,
              writer := if total > cfg.window then OverBudget else Notifying)
  {
    more, t := Extend(cfg, events, s, Push(c));
    more, t := Extend(cfg, more, t, CountChunk);
    more, t := Extend(cfg, more, t, AddBytes);
  }

  /** The writer has admitted a chunk that `bytes_written` does not count yet. */
  predicate ChunkInFlight(s: State) {
    s.writer.Admitted? || s.writer.Pushed? || s.writer.Counted?
  }

  /** The overshoot error, exactly: with no chunk in flight a reader inside the window gets it on its
      next round if and only if the size was recorded after more than that had been admitted. */
  lemma OvershootIff(cfg: Config, events: seq<Event>, r: nat) returns (more: seq<Event>, t: State)
    requires Exec(cfg, events).Some? && !ChunkInFlight(Exec(cfg, events).value)
    requires r in Exec(cfg, events).value.readers && Exec(cfg, events).value.readers[r].pc.Top?
    requires Exec(cfg, events).value.earliest <= Exec(cfg, events).value.readers[r].cursor
    ensures more == events + [LoadEarliest(r)] + [LoadBytes(r)] + [LoadSize(r)] && Exec(cfg, more) == Some(t)
    ensures
      r in t.readers &&
      t.readers[r].pc ==
        if Oversized(events) then Finished(Overshoot(Bytes(Sends(events)), Expected(cfg, t))) else LoadedSize(t.earliest)
  {
    AllCounted(cfg, events);
    more, t := LoadThrice(cfg, events, Exec(cfg, events).value, r);
  }

  /** With no chunk in flight all bytes admitted are sent and counted. */
  lemma AllCounted(cfg: Config, events: seq<Event>)
    requires Exec(cfg, events).Some? && !ChunkInFlight(Exec(cfg, events).value)
    ensures
      var s := Exec(cfg, events).value;
      s.bytesWritten == Bytes(Sends(events)) && (s.bytesWritten > Expected(cfg, s) <==> Oversized(events))
  {
    AdmittedBytes(cfg, events);
    OversizedIffOver(cfg, events);
  }

  lemma LoadThrice(cfg: Config, events: seq<Event>, s: State, r: nat) returns (more: seq<Event>, t: State)
    requires Exec(cfg, events) == Some(s) && r in s.readers && s.readers[r].pc.Top? && s.earliest <= s.readers[r].cursor
    ensures more == events + [LoadEarliest(r)] + [LoadBytes(r)] + [LoadSize(r)] && Exec(cfg, more) == Some(t)
    ensures t == s.(readers := s.readers[r := s.readers[r].(pc := Checked(cfg, s))])
  {
    more, t := Extend(cfg, events, s, LoadEarliest(r));
    more, t := Extend(cfg, more, t, LoadBytes(r));
    more, t := Extend(cfg, more, t, LoadSize(r));
  }

  /** Where the three loads at the head of the loop lead. */
  function Checked(cfg: Config, s: State): ReaderPc {
    if s.bytesWritten > Expected(cfg, s) then Finished(Overshoot(s.bytesWritten, Expected(cfg, s))) else LoadedSize(s.earliest)
  }

  /** How the writer has ended: by the first call that ends it. */
  function EndOf(events: seq<Event>): Terminal {
    if events == [] then Running
    else
      var n := |events| - 1;
      if EndOf(events[..n]).Running? then EndBy(events[n]) else EndOf(events[..n])
  }

  function EndBy(e: Event): Terminal {
    match e
    case SendEof => Eof
    case SendError(error) => Failed(error)
    case DropWriter => Failed("writer dropped without sending EOF")
    case _ => Running
  }

  /** No size is recorded after the writer has ended. */
  predicate SizedInTime(events: seq<Event>) {
    events != [] ==>
      var n := |events| - 1;
      SizedInTime(events[..n]) && (events[n].SetSize? ==> EndOf(events[..n]).Running?)
  }

  /** The terminal state is how the writer has ended. */
  lemma {:induction false} TerminalIsTheEnd(cfg: Config, events: seq<Event>)
    requires Exec(cfg, events).Some?
    ensures Exec(cfg, events).value.terminal == EndOf(events)
  {
    if events != [] {
      var n := |events| - 1;
      TerminalIsTheEnd(cfg, events[..n]);
      Reachable(cfg, events[..n]);
      EndStep(cfg, Exec(cfg, events[..n]).value, events[n]);
    }
  }

  lemma EndStep(cfg: Config, s: State, e: Event)
    requires Enabled(cfg, s, e) && WriterOk(cfg, s)
    ensures Apply(cfg, s, e).terminal == if s.terminal.Running? then EndBy(e) else s.terminal
  {
    if !IsWriterEvent(e) { ReaderEvents(cfg, s, e); }
  }

  /** The size that a reader was judged by when it was told of an end of file. */
  function JudgedBy(o: Outcome): Option<nat> {
    match o
    case Complete(size) => Some(size)
    case ShortWrite(_, size) => Some(size)
    case _ => None
  }

  ghost predicate JudgedRight(cfg: Config, s: State, rd: Reader) {
    rd.pc.Finished? && JudgedBy(rd.pc.outcome).Some? ==> JudgedBy(rd.pc.outcome).value == Expected(cfg, s)
  }

  lemma JudgedStep(cfg: Config, s: State, e: Event, r: nat)
    requires Inv(cfg, s) && Enabled(cfg, s, e) && (e.SetSize? ==> s.terminal.Running?)
    requires r in Apply(cfg, s, e).readers && (r in s.readers ==> JudgedRight(cfg, s, s.readers[r]))
    ensures JudgedRight(cfg, Apply(cfg, s, e), Apply(cfg, s, e).readers[r])
  {
    if r in s.readers { assert ReaderOk(cfg, s, s.readers[r]); }
    if IsWriterEvent(e) { WriterStepJudged(cfg, s, e); }
  }

  lemma WriterStepJudged(cfg: Config, s: State, e: Event)
    requires Enabled(cfg, s, e) && IsWriterEvent(e)
    ensures ApplyWriter(cfg, s, e).readers == s.readers && (e.SetSize? || ApplyWriter(cfg, s, e).sized == s.sized)
  {
  }

  /** If no size is recorded after the writer has ended, every reader is judged by the same size. */
  lemma {:induction false} JudgedByTheSize(cfg: Config, events: seq<Event>, r: nat)
    requires Exec(cfg, events).Some? && SizedInTime(events) && r in Exec(cfg, events).value.readers
    ensures JudgedRight(cfg, Exec(cfg, events).value, Exec(cfg, events).value.readers[r])
  {
    if events != [] {
      var n := |events| - 1;
      var s := Exec(cfg, events[..n]).value;
      if r in s.readers { JudgedByTheSize(cfg, events[..n], r); }
      TerminalIsTheEnd(cfg, events[..n]);
      Reachable(cfg, events[..n]);
      JudgedStep(cfg, s, events[n], r);
    }
  }

  /** The size is recorded, if at all, before anything is admitted and before the end. */
  predicate SizedFirst(events: seq<Event>) {
    events != [] ==>
      var n := |events| - 1;
      SizedFirst(events[..n]) && (events[n].SetSize? ==> Admits(events[..n]) == [] && EndOf(events[..n]).Running?)
  }

  /** Recording the size before the first chunk, as the source asks, is in time and never too small. */
  lemma {:induction false} SizedFirstIsRight(events: seq<Event>)
    requires SizedFirst(events)
    ensures SizedInTime(events) && !Oversized(events)
  {
    if events != [] { SizedFirstIsRight(events[..|events| - 1]); }
  }

  // ----- outcomes -----

  /** End of file is reported only when the writer ended with `send_eof` and at least the expected size; the reader
      then holds everything from where it joined, which is the whole blob exactly when the chunks it
      missed are empty. If the size was recorded in time, the reader was judged by it, and the blob
      has exactly that size unless it was recorded too small. */
  lemma CompleteMeansWholeBlob(cfg: Config, events: seq<Event>, r: nat)
    requires Exec(cfg, events).Some? && r in Exec(cfg, events).value.readers
    requires Exec(cfg, events).value.readers[r].pc.Finished? && Exec(cfg, events).value.readers[r].pc.outcome.Complete?
    ensures
      var s := Exec(cfg, events).value;
      var rd := s.readers[r];
      var all := Flatten(Sends(events));
      && EndOf(events) == Eof && rd.pc.outcome.size <= |all|
      && rd.start <= |Sends(events)| && Flatten(rd.received) == Flatten(Sends(events)[rd.start..])
      && (Flatten(rd.received) == all <==> Flatten(Sends(events)[..rd.start]) == [])
      && (SizedInTime(events) ==>
            rd.pc.outcome.size == Expected(cfg, s) && (|all| == Expected(cfg, s) <==> !Oversized(events)))
  {
    Reachable(cfg, events);
    SentIsWhatWasSent(cfg, events);
    FlattenSize(Sends(events));
    var s := Exec(cfg, events).value;
    var rd := s.readers[r];
    assert ReaderOk(cfg, s, rd);
    AllCounted(cfg, events);
    TerminalIsTheEnd(cfg, events);
    FlattenSuffix(Sends(events), rd.start);
    if SizedInTime(events) { JudgedByTheSize(cfg, events, r); }
  }

  lemma FlattenSuffix(cs: seq<Chunk>, i: nat)
    requires i <= |cs|
    ensures cs[i..|cs|] == cs[i..]
    ensures Flatten(cs) == Flatten(cs[..i]) + Flatten(cs[i..])
    ensures Flatten(cs[i..]) == Flatten(cs) <==> Flatten(cs[..i]) == []
  {
    SplitAt(cs, i);
    FlattenConcat(cs[..i], cs[i..]);
    if Flatten(cs[i..]) == Flatten(cs) { assert |Flatten(cs[..i])| == 0; }
  }

  /** What a reader that gets to the end is to be told, when `total` bytes were sent and `size` are
      expected. */
  function Ending(terminal: Terminal, total: nat, size: nat): Outcome {
    match terminal
    case Eof => if total < size then ShortWrite(total, size) else Complete(size)
    case Failed(error) => WriterFailed(error)
    case Running => DeadlineExceeded
  }

  ghost predicate Truthful(cfg: Config, s: State, rd: Reader, end: Terminal, total: nat, o: Outcome) {
    match o
    case FellBehind => rd.cursor < s.earliest
    case DeadlineExceeded => true
    case Overshoot(bytes, size) => size < bytes <= total && s.sized == Some(size)
    case _ => exists size :: InForce(cfg, s, size) && o == Ending(end, total, size)
  }

  /** The outcome tells the truth, however the size is recorded: only an evicted cursor is told that it
      fell behind, an overshoot is told only when more was sent than was recorded, and otherwise,
      unless it timed out, a reader is told how the writer ended: in full, short, or with its error. */
  lemma OutcomesAreTruthful(cfg: Config, events: seq<Event>, r: nat)
    requires Exec(cfg, events).Some? && r in Exec(cfg, events).value.readers
    requires Exec(cfg, events).value.readers[r].pc.Finished?
    ensures
      var s := Exec(cfg, events).value;
      var o := s.readers[r].pc.outcome;
      && Truthful(cfg, s, s.readers[r], EndOf(events), |Flatten(Sends(events))|, o)
      && (o.Overshoot? ==> Oversized(events))
  {
    Reachable(cfg, events);
    FlattenSize(Sends(events));
    AdmittedBytes(cfg, events);
    OversizedIffOver(cfg, events);
    var s := Exec(cfg, events).value;
    assert ReaderOk(cfg, s, s.readers[r]);
    TerminalIsTheEnd(cfg, events);
    TruthOfOutcome(cfg, s, s.readers[r], s.readers[r].pc.outcome);
  }

  lemma TruthOfOutcome(cfg: Config, s: State, rd: Reader, o: Outcome)
    requires OutcomeOk(cfg, s, rd, o)
    ensures Truthful(cfg, s, rd, s.terminal, Bytes(s.sent), o)
  {
    match o
    case Complete(size) => assert InForce(cfg, s, size) && o == Ending(s.terminal, Bytes(s.sent), size);
    case ShortWrite(_, size) => assert InForce(cfg, s, size) && o == Ending(s.terminal, Bytes(s.sent), size);
    case WriterFailed(_) => assert InForce(cfg, s, cfg.digestSize) && o == Ending(s.terminal, Bytes(s.sent), cfg.digestSize);
    case _ =>
  }

  /** With the size recorded first, as the source asks, the overshoot error never occurs and the
      outcome is settled by how the writer ended and by the one expected size. */
  lemma OutcomesWhenSizedFirst(cfg: Config, events: seq<Event>, r: nat)
    requires Exec(cfg, events).Some? && r in Exec(cfg, events).value.readers
    requires Exec(cfg, events).value.readers[r].pc.Finished? && SizedFirst(events)
    ensures
      var s := Exec(cfg, events).value;
      var o := s.readers[r].pc.outcome;
      && (o == FellBehind || o == DeadlineExceeded || o == Ending(EndOf(events), |Flatten(Sends(events))|, Expected(cfg, s)))
      && (o.Complete? ==> |Flatten(Sends(events))| == Expected(cfg, s))
  {
    SizedFirstIsRight(events);
    OutcomesAreTruthful(cfg, events, r);
    JudgedByTheSize(cfg, events, r);
    if Exec(cfg, events).value.readers[r].pc.outcome.Complete? { CompleteMeansWholeBlob(cfg, events, r); }
  }

  /** Unless the writer is between its push and its bump of the version, the latest chunks are held, as
      many as fit into the window and no fewer. */
  lemma WindowIsBounded(cfg: Config, events: seq<Event>)
    requires Exec(cfg, events).Some? && Quiet(Exec(cfg, events).value)
    ensures
      var s := Exec(cfg, events).value;
      && Bytes(s.deque) <= cfg.window
      && s.earliest <= |Sends(events)|
      && s.deque == Sends(events)[s.earliest..]
      && (s.earliest > 0 ==> Bytes(Sends(events)[s.earliest - 1..]) > cfg.window)
  {
    Reachable(cfg, events);
    SentIsWhatWasSent(cfg, events);
  }

  /** Under the lock the recomputed index always lands on the chunk at the cursor, so the
      out-of-range branch of `next_chunk` is dead. */
  lemma LockedReadFindsItsChunk(cfg: Config, events: seq<Event>, r: nat)
    requires Exec(cfg, events).Some? && Enabled(cfg, Exec(cfg, events).value, LockedRead(r))
    ensures
      var s := Exec(cfg, events).value;
      var rd := s.readers[r];
      match ResolveDequeIdx(rd.cursor, s.earliest)
      case None => rd.cursor < s.earliest
      case Some(i) => i < |s.deque| && rd.cursor < |Sends(events)| && s.deque[i] == Sends(events)[rd.cursor]
  {
    Reachable(cfg, events);
    SentIsWhatWasSent(cfg, events);
    var s := Exec(cfg, events).value;
    assert ReaderOk(cfg, s, s.readers[r]);
  }

  /** No lost wakeup: a reader that would stay parked has nothing to read and no ending to see. */
  lemma NoLostWakeup(cfg: Config, events: seq<Event>, r: nat)
    requires Exec(cfg, events).Some? && r in Exec(cfg, events).value.readers
    requires Exec(cfg, events).value.readers[r].pc.Parked? && Quiet(Exec(cfg, events).value)
    requires !Enabled(cfg, Exec(cfg, events).value, Wake(r))
    ensures
      var s := Exec(cfg, events).value;
      EndOf(events).Running? && s.readers[r].cursor == |Sends(events)|
  {
    Reachable(cfg, events);
    TerminalIsTheEnd(cfg, events);
    SentIsWhatWasSent(cfg, events);
    ParkedHasNothingToDo(cfg, Exec(cfg, events).value, r);
  }

  lemma ParkedHasNothingToDo(cfg: Config, s: State, r: nat)
    requires Inv(cfg, s) && r in s.readers && s.readers[r].pc.Parked? && Quiet(s)
    requires !Enabled(cfg, s, Wake(r))
    ensures s.terminal.Running? && s.readers[r].cursor == |s.sent|
  {
    assert ReaderOk(cfg, s, s.readers[r]);
  }

  /** A reader joins at the oldest chunk held, with nothing read and every notification ahead of it, and
      keeps its starting point. */
  lemma {:induction false} JoinsAtTheFront(cfg: Config, before: seq<Event>, after: seq<Event>, r: nat)
    requires Exec(cfg, before + ([Subscribe(r)] + after)).Some?
    ensures
      && Exec(cfg, before).Some? && r in Exec(cfg, before + ([Subscribe(r)] + after)).value.readers
      && var rd := Exec(cfg, before + ([Subscribe(r)] + after)).value.readers[r];
         && rd.start == Exec(cfg, before).value.earliest
         && (Wake(r) !in after ==> rd.seen == 0)
    decreases |after|
  {
    var run := [Subscribe(r)] + after;
    ExecSplit(cfg, before, run);
    if after == [] {
      assert before + run[..0] == before;
    } else {
      var n := |after| - 1;
      assert run[..|run| - 1] == [Subscribe(r)] + after[..n] && run[|run| - 1] == after[n];
      JoinsAtTheFront(cfg, before, after[..n], r);
      KeepsStart(cfg, Exec(cfg, before + run[..|run| - 1]).value, after[n], r);
      assert after[n] in after && forall e :: e in after[..n] ==> e in after;
    }
  }

  lemma KeepsStart(cfg: Config, s: State, e: Event, r: nat)
    requires Enabled(cfg, s, e) && r in s.readers
    ensures
      && r in Apply(cfg, s, e).readers && Apply(cfg, s, e).readers[r].start == s.readers[r].start
      && (e == Wake(r) || Apply(cfg, s, e).readers[r].seen == s.readers[r].seen)
  {
    if IsWriterEvent(e) { WriterStepJudged(cfg, s, e); }
  }

  /** The latest step of reader `r`. */
  function LatestOf(events: seq<Event>, r: nat): Option<Event> {
    if events == [] then None
    else
      var n := |events| - 1;
      if StepOf(events[n], r) then Some(events[n]) else LatestOf(events[..n], r)
  }

  /** A reader is told that the deadline is exceeded exactly when its wait has timed out. */
  lemma {:induction false} DeadlineIffTimedOut(cfg: Config, events: seq<Event>, r: nat)
    requires Exec(cfg, events).Some?
    ensures
      var s := Exec(cfg, events).value;
      && (r !in s.readers ==> LatestOf(events, r) == None)
      && (r in s.readers ==> (s.readers[r].pc == Finished(DeadlineExceeded) <==> LatestOf(events, r) == Some(TimeOut(r))))
  {
    if events != [] {
      var n := |events| - 1;
      DeadlineIffTimedOut(cfg, events[..n], r);
      DeadlineStep(cfg, Exec(cfg, events[..n]).value, events[n], r);
    }
  }

  lemma DeadlineStep(cfg: Config, s: State, e: Event, r: nat)
    requires Enabled(cfg, s, e)
    ensures r in Apply(cfg, s, e).readers <==> r in s.readers || e == Subscribe(r)
    ensures StepOf(e, r) ==> r in s.readers && (Apply(cfg, s, e).readers[r].pc == Finished(DeadlineExceeded) <==> e == TimeOut(r))
    ensures !StepOf(e, r) && r in s.readers ==> Apply(cfg, s, e).readers[r].pc == s.readers[r].pc
    ensures e == Subscribe(r) ==> r !in s.readers && Apply(cfg, s, e).readers[r].pc == Top
  {
    if IsWriterEvent(e) { WriterStepJudged(cfg, s, e); }
  }

  // ----- notifications -----

  function Notifies(events: seq<Event>): nat {
    if events == [] then 0 else Notifies(events[..|events| - 1]) + if events[|events| - 1].Notify? then 1 else 0
  }

  /** How often reader `r` was woken. */
  function WakesOf(events: seq<Event>, r: nat): nat {
    if events == [] then 0 else WakesOf(events[..|events| - 1], r) + if events[|events| - 1] == Wake(r) then 1 else 0
  }

  /** Whether a notification is still to come. */
  function Owed(s: State): nat {
    if Quiet(s) then 0 else 1
  }

  /** There is one notification for each chunk pushed and one for the end, and none for anything else. */
  lemma {:induction false} OneNotificationEach(cfg: Config, events: seq<Event>)
    requires Exec(cfg, events).Some?
    ensures
      var s := Exec(cfg, events).value;
      && s.version == Notifies(events)
      && Notifies(events) + Owed(s) == |Sends(events)| + if EndOf(events).Running? then 0 else 1
  {
    if events != [] {
      var n := |events| - 1;
      OneNotificationEach(cfg, events[..n]);
      Reachable(cfg, events[..n]);
      TerminalIsTheEnd(cfg, events[..n]);
      VersionStep(cfg, Exec(cfg, events[..n]).value, events[n]);
    }
  }

  lemma VersionStep(cfg: Config, s: State, e: Event)
    requires Enabled(cfg, s, e) && WriterOk(cfg, s)
    ensures Apply(cfg, s, e).version == s.version + if e.Notify? then 1 else 0
    ensures
      Owed(Apply(cfg, s, e)) + (if e.Notify? then 1 else 0) ==
      Owed(s) + (if e.Push? then 1 else 0) + (if s.terminal.Running? && !EndBy(e).Running? then 1 else 0)
    ensures !EndBy(e).Running? ==> s.terminal.Running?
  {
    if !IsWriterEvent(e) { ReaderEvents(cfg, s, e); }
  }

  /** No notification wakes a reader twice. */
  lemma {:induction false} WokenOncePerNotification(cfg: Config, events: seq<Event>, r: nat)
    requires Exec(cfg, events).Some?
    ensures
      var s := Exec(cfg, events).value;
      && (r !in s.readers ==> WakesOf(events, r) == 0)
      && (r in s.readers ==> WakesOf(events, r) <= s.readers[r].seen <= Notifies(events))
  {
    Reachable(cfg, events);
    OneNotificationEach(cfg, events);
    if events != [] {
      var n := |events| - 1;
      WokenOncePerNotification(cfg, events[..n], r);
      SeenStep(cfg, Exec(cfg, events[..n]).value, events[n], r);
    }
    if r in Exec(cfg, events).value.readers { assert ReaderOk(cfg, Exec(cfg, events).value, Exec(cfg, events).value.readers[r]); }
  }

  /** The steps of readers leave everything but the readers alone. */
  lemma ReaderEvents(cfg: Config, s: State, e: Event)
    requires Enabled(cfg, s, e) && !IsWriterEvent(e)
    ensures Apply(cfg, s, e) == s.(readers := Apply(cfg, s, e).readers)
  {
  }

  lemma SeenStep(cfg: Config, s: State, e: Event, r: nat)
    requires Enabled(cfg, s, e)
    ensures r in Apply(cfg, s, e).readers <==> r in s.readers || e == Subscribe(r)
    ensures e == Wake(r) ==> r in s.readers && s.readers[r].seen < Apply(cfg, s, e).readers[r].seen
    ensures e != Wake(r) && r in s.readers ==> Apply(cfg, s, e).readers[r].seen == s.readers[r].seen
  {
    if IsWriterEvent(e) { WriterStepJudged(cfg, s, e); }
  }

  // ----- once the writer is done, every reader ends -----

  /** Steps reader `rd` can still take once the writer is done. */
  function Rank(s: State, rd: Reader): nat
    requires rd.cursor <= |s.sent|
  {
    if rd.cursor < s.earliest then
      match rd.pc
      case Finished(_) => 0
      case Top => 1
      case AwaitLock(_) => 2
      case LoadedSize(_) => 3
      case LoadedBytes(_, _) => 4
      case LoadedEarliest(_) => 5
      case CheckTerminal => 6
      case Parked => 7
    else
      8 * (|s.sent| - rd.cursor) +
      match rd.pc
      case Finished(_) => 0
      case CheckTerminal => if rd.cursor < |s.sent| then 7 else 1
      case AwaitLock(_) => 2
      case LoadedSize(_) => 3
      case LoadedBytes(_, _) => 4
      case LoadedEarliest(_) => 5
      case Top => 6
      case Parked => 7
  }

  predicate StepOf(e: Event, r: nat) {
    !IsWriterEvent(e) && !e.Subscribe? && e.r == r
  }

  function StepsOf(events: seq<Event>, r: nat): nat {
    if events == [] then 0
    else
      var n := |events| - 1;
      StepsOf(events[..n], r) + if StepOf(events[n], r) then 1 else 0
  }

  /** How often reader `r` calls `next_chunk` again after an answer that ended the loop. */
  function CallsOf(events: seq<Event>, r: nat): nat {
    if events == [] then 0
    else
      var n := |events| - 1;
      CallsOf(events[..n], r) + if events[n] == Again(r) then 1 else 0
  }

  lemma {:induction false} ExecSplit(cfg: Config, before: seq<Event>, after: seq<Event>)
    requires after != [] && Exec(cfg, before + after).Some?
    ensures
      var n := |after| - 1;
      && Exec(cfg, before + after[..n]).Some?
      && Enabled(cfg, Exec(cfg, before + after[..n]).value, after[n])
      && Exec(cfg, before + after).value == Apply(cfg, Exec(cfg, before + after[..n]).value, after[n])
  {
    assert (before + after)[..|before + after| - 1] == before + after[..|after| - 1];
  }

  /** Nothing but the readers and the recorded size differs. */
  predicate SameBuffer(s: State, t: State) {
    t == s.(readers := t.readers, sized := t.sized)
  }

  lemma OthersDoNotMove(cfg: Config, s: State, e: Event, r: nat)
    requires s.writer.Done? && !s.terminal.Running? && Enabled(cfg, s, e) && r in s.readers && !StepOf(e, r)
    ensures SameBuffer(s, Apply(cfg, s, e)) && r in Apply(cfg, s, e).readers && Apply(cfg, s, e).readers[r] == s.readers[r]
  {
  }

  lemma LockedReadLowersRank(cfg: Config, s: State, r: nat)
    requires WriterOk(cfg, s) && s.writer.Done? && Enabled(cfg, s, LockedRead(r)) && ReaderOk(cfg, s, s.readers[r])
    requires StepReader(cfg, s, s.readers[r], LockedRead(r)).cursor <= |s.sent|
    ensures Rank(s, StepReader(cfg, s, s.readers[r], LockedRead(r))) < Rank(s, s.readers[r])
  {
  }

  lemma OtherStepLowersRank(cfg: Config, s: State, e: Event, r: nat)
    requires WriterOk(cfg, s) && s.writer.Done? && Enabled(cfg, s, e) && StepOf(e, r) && !e.LockedRead? && !e.Again?
    requires ReaderOk(cfg, s, s.readers[r])
    ensures StepReader(cfg, s, s.readers[r], e).cursor == s.readers[r].cursor
    ensures Rank(s, StepReader(cfg, s, s.readers[r], e)) < Rank(s, s.readers[r])
  {
  }

  lemma DoneStep(cfg: Config, s: State, e: Event, r: nat)
    requires Inv(cfg, s) && s.writer.Done? && Enabled(cfg, s, e) && r in s.readers
    ensures
      var t := Apply(cfg, s, e);
      && SameBuffer(s, t)
      && r in t.readers
      && s.readers[r].cursor <= |s.sent| && t.readers[r].cursor <= |s.sent|
      && (if e == Again(r) then Rank(s, t.readers[r]) <= Rank(s, s.readers[r]) + 6
          else if StepOf(e, r) then Rank(s, t.readers[r]) < Rank(s, s.readers[r])
          else t.readers[r] == s.readers[r])
  {
    assert ReaderOk(cfg, s, s.readers[r]);
    if !StepOf(e, r) {
      OthersDoNotMove(cfg, s, e, r);
    } else if e.LockedRead? {
      LockedReadKeepsReader(cfg, s, r);
      LockedReadLowersRank(cfg, s, r);
    } else if !e.Again? {
      OtherStepLowersRank(cfg, s, e, r);
    }
  }

  /** In every run, once the writer is done, each reader takes at most `8 * (sent + 1)` more steps, and
      seven for each time it calls again after an end or an error, however the others are scheduled. */
  lemma {:induction false} DoneReadersTakeBoundedSteps(cfg: Config, before: seq<Event>, after: seq<Event>, r: nat)
    requires Exec(cfg, before).Some? && Exec(cfg, before).value.writer.Done?
    requires r in Exec(cfg, before).value.readers
    requires Exec(cfg, before + after).Some?
    ensures
      var s, t := Exec(cfg, before).value, Exec(cfg, before + after).value;
      && SameBuffer(s, t)
      && r in t.readers
      && s.readers[r].cursor <= |s.sent| && t.readers[r].cursor <= |s.sent|
      && StepsOf(after, r) + Rank(s, t.readers[r]) <= Rank(s, s.readers[r]) + 7 * CallsOf(after, r)
      && Rank(s, s.readers[r]) <= 8 * (|s.sent| + 1)
  {
    Reachable(cfg, before);
    var s := Exec(cfg, before).value;
    assert ReaderOk(cfg, s, s.readers[r]);
    if after == [] {
      assert before + after == before;
    } else {
      var n := |after| - 1;
      ExecSplit(cfg, before, after);
      DoneReadersTakeBoundedSteps(cfg, before, after[..n], r);
      Reachable(cfg, before + after[..n]);
      var p := Exec(cfg, before + after[..n]).value;
      DoneStep(cfg, p, after[n], r);
      RankOnlySeesTheBuffer(p, s, p.readers[r]);
      RankOnlySeesTheBuffer(p, s, Apply(cfg, p, after[n]).readers[r]);
    }
  }

  lemma RankOnlySeesTheBuffer(s: State, t: State, rd: Reader)
    requires s.sent == t.sent && s.earliest == t.earliest && rd.cursor <= |s.sent|
    ensures Rank(s, rd) == Rank(t, rd)
  {
  }

  lemma StepOfReader(cfg: Config, s: State, r: nat) returns (e: Event)
    requires s.writer.Done? && !s.terminal.Running? && r in s.readers
    requires ReaderOk(cfg, s, s.readers[r]) && !s.readers[r].pc.Finished?
    ensures StepOf(e, r) && !e.TimeOut? && Enabled(cfg, s, e)
  {
    match s.readers[r].pc
    case Top => e := LoadEarliest(r);
    case LoadedEarliest(_) => e := LoadBytes(r);
    case LoadedBytes(_, _) => e := LoadSize(r);
    case LoadedSize(_) => e := LoadCount(r);
    case AwaitLock(_) => e := LockedRead(r);
    case CheckTerminal => e := ReadTerminal(r);
    case Parked => e := Wake(r);
  }

  /** A reader that has not ended always has a step other than timing out, once the writer is done. */
  lemma DoneReadersAreNeverStuck(cfg: Config, events: seq<Event>, r: nat) returns (e: Event)
    requires Exec(cfg, events).Some? && Exec(cfg, events).value.writer.Done?
    requires r in Exec(cfg, events).value.readers && !Exec(cfg, events).value.readers[r].pc.Finished?
    ensures StepOf(e, r) && !e.TimeOut? && Enabled(cfg, Exec(cfg, events).value, e)
  {
    Reachable(cfg, events);
    e := StepOfReader(cfg, Exec(cfg, events).value, r);
  }

  /** Steps of reader `r` inside one call, none of them a time-out. */
  predicate OneCall(steps: seq<Event>, r: nat) {
    forall i :: 0 <= i < |steps| ==> StepOf(steps[i], r) && !steps[i].TimeOut? && !steps[i].Again?
  }

  lemma {:induction false} CallsOfReadersAddNothing(events: seq<Event>, steps: seq<Event>, r: nat)
    requires OneCall(steps, r)
    ensures Sends(events + steps) == Sends(events) && Admits(events + steps) == Admits(events)
    ensures EndOf(events + steps) == EndOf(events) && SizeSet(events + steps) == SizeSet(events)
    ensures Oversized(events + steps) == Oversized(events) && SizedInTime(events + steps) == SizedInTime(events)
    decreases |steps|
  {
    if steps == [] {
      assert events + steps == events;
    } else {
      var n := |steps| - 1;
      assert (events + steps)[..|events + steps| - 1] == events + steps[..n];
      CallsOfReadersAddNothing(events, steps[..n], r);
    }
  }

  /** Once the writer is done, a reader that is left alone gets to an answer without timing out. */
  lemma {:induction false} ReaderGetsAnAnswer(cfg: Config, events: seq<Event>, s: State, r: nat) returns (steps: seq<Event>, t: State)
    requires Exec(cfg, events) == Some(s) && Inv(cfg, s) && s.writer.Done?
    requires r in s.readers && !s.readers[r].pc.Finished? && s.readers[r].cursor <= |s.sent|
    ensures OneCall(steps, r) && steps != [] && Exec(cfg, events + steps) == Some(t)
    ensures t == s.(readers := t.readers) && r in t.readers && t.readers[r].pc.Finished?
    ensures s.readers[r].cursor <= t.readers[r].cursor
    decreases Rank(s, s.readers[r])
  {
    var e := StepOfReader(cfg, s, r);
    var run, next := Extend(cfg, events, s, e);
    DoneStep(cfg, s, e, r);
    StepKeepsInv(cfg, s, e);
    ReaderStepKeeps(cfg, s, e, r);
    if next.readers[r].pc.Finished? {
      steps, t := [e], next;
    } else {
      RankOnlySeesTheBuffer(s, next, next.readers[r]);
      var rest;
      rest, t := ReaderGetsAnAnswer(cfg, run, next, r);
      steps := [e] + rest;
      Associate(events, [e], rest);
    }
  }

  lemma ReaderStepKeeps(cfg: Config, s: State, e: Event, r: nat)
    requires Enabled(cfg, s, e) && StepOf(e, r)
    ensures Apply(cfg, s, e) == s.(readers := Apply(cfg, s, e).readers)
    ensures r in s.readers && r in Apply(cfg, s, e).readers && s.readers[r].cursor <= Apply(cfg, s, e).readers[r].cursor
  {
  }

  lemma {:induction false} RunningIsInTime(events: seq<Event>)
    requires EndOf(events).Running?
    ensures SizedInTime(events)
  {
    if events != [] { RunningIsInTime(events[..|events| - 1]); }
  }

  /** The writer can end in each of the three ways whenever it is between calls. */
  lemma WriterEnds(cfg: Config, events: seq<Event>, s: State, e: Event) returns (more: seq<Event>, t: State)
    requires Exec(cfg, events) == Some(s) && s.writer.Idle? && !EndBy(e).Running?
    ensures more == events + [e] + [Notify] && Exec(cfg, more) == Some(t)
    ensures t == s.(terminal := EndBy(e), writer := Done, version := s.version + 1)
    ensures EndOf(events).Running? && EndOf(more) == EndBy(e) && SizedInTime(more)
    ensures Sends(more) == Sends(events) && Oversized(more) == Oversized(events)
  {
    Reachable(cfg, events);
    TerminalIsTheEnd(cfg, events);
    RunningIsInTime(events);
    var run, u := Extend(cfg, events, s, e);
    assert run[..|events|] == events;
    more, t := Extend(cfg, run, u, Notify);
    assert more[..|run|] == run;
  }

  /** However the writer ends, every reader inside the window can be told exactly that: after any run
      and with any ending, unless the size was recorded too small. */
  lemma EveryEndIsTold(cfg: Config, events: seq<Event>, s: State, e: Event, r: nat) returns (more: seq<Event>, t: State)
    requires Exec(cfg, events) == Some(s) && s.writer.Idle? && !EndBy(e).Running? && !Oversized(events)
    requires r in s.readers && !s.readers[r].pc.Finished? && s.earliest <= s.readers[r].cursor
    ensures events <= more && Exec(cfg, more) == Some(t) && r in t.readers
    ensures t.readers[r].pc == Finished(Ending(EndBy(e), |Flatten(Sends(events))|, Expected(cfg, s)))
  {
    var run, u := WriterEnds(cfg, events, s, e);
    var steps;
    steps, t := EndIsTold(cfg, run, u, r);
    more := run + steps;
    PrefixOfLonger(events, [e], [Notify], steps);
  }

  lemma PrefixOfLonger(a: seq<Event>, b: seq<Event>, c: seq<Event>, d: seq<Event>)
    ensures a <= a + b + c + d
  {
  }

  /** Once the writer is done, every reader inside the window can be told how it ended. */
  lemma EndIsTold(cfg: Config, run: seq<Event>, u: State, r: nat) returns (steps: seq<Event>, t: State)
    requires Exec(cfg, run) == Some(u) && u.writer.Done? && !Oversized(run) && SizedInTime(run)
    requires r in u.readers && !u.readers[r].pc.Finished? && u.earliest <= u.readers[r].cursor
    ensures Exec(cfg, run + steps) == Some(t) && r in t.readers
    ensures t.readers[r].pc == Finished(Ending(EndOf(run), |Flatten(Sends(run))|, Expected(cfg, u)))
  {
    Reachable(cfg, run);
    assert ReaderOk(cfg, u, u.readers[r]);
    steps, t := ReaderGetsAnAnswer(cfg, run, u, r);
    CallsOfReadersAddNothing(run, steps, r);
    AnswerOf(cfg, run + steps, t, run, steps, r);
  }

  lemma AnswerOf(cfg: Config, more: seq<Event>, t: State, run: seq<Event>, steps: seq<Event>, r: nat)
    requires more == run + steps && OneCall(steps, r) && steps != [] && Exec(cfg, more) == Some(t)
    requires r in t.readers && t.readers[r].pc.Finished? && t.earliest <= t.readers[r].cursor
    requires !Oversized(more) && SizedInTime(more)
    ensures t.readers[r].pc.outcome == Ending(EndOf(more), |Flatten(Sends(more))|, Expected(cfg, t))
  {
    OutcomesAreTruthful(cfg, more, r);
    JudgedByTheSize(cfg, more, r);
    DeadlineIffTimedOut(cfg, more, r);
    assert more[|more| - 1] == steps[|steps| - 1];
  }

  /** A reader whose wait has timed out has lost nothing: called again, it is where it was. */
  lemma TimingOutLosesNothing(cfg: Config, events: seq<Event>, s: State, r: nat) returns (more: seq<Event>, t: State)
    requires Exec(cfg, events) == Some(s) && r in s.readers && s.readers[r].pc.Parked?
    ensures more == events + [TimeOut(r)] + [Again(r)] && Exec(cfg, more) == Some(t)
    ensures t == s.(readers := s.readers[r := s.readers[r].(pc := Top)])
  {
    more, t := Extend(cfg, events, s, TimeOut(r));
    more, t := Extend(cfg, more, t, Again(r));
  }

  /** Reader `r` is inside the window and has not been told anything but end of file. */
  predicate OnlyEofAhead(cfg: Config, s: State, r: nat) {
    && r in s.readers && s.earliest <= s.readers[r].cursor
    && (s.readers[r].pc.Finished? ==> s.readers[r].pc == Finished(Complete(Expected(cfg, s))))
  }

  lemma FullEofStep(cfg: Config, s: State, e: Event, r: nat)
    requires Inv(cfg, s) && s.writer.Done? && s.terminal.Eof? && Bytes(s.sent) == Expected(cfg, s)
    requires Enabled(cfg, s, e) && e != TimeOut(r) && (e.SetSize? ==> s.sized.Some?)
    requires OnlyEofAhead(cfg, s, r)
    ensures Apply(cfg, s, e) == s.(readers := Apply(cfg, s, e).readers) && OnlyEofAhead(cfg, Apply(cfg, s, e), r)
  {
    assert ReaderOk(cfg, s, s.readers[r]);
    if !StepOf(e, r) {
      OthersDoNotMove(cfg, s, e, r);
      SizeStep(cfg, s, e);
    }
  }

  /** After an end of file with the expected size, which is not recorded anew, a reader still inside
      the window can only end with end of file. */
  lemma {:induction false} FullEofReachesReaders(cfg: Config, before: seq<Event>, after: seq<Event>, r: nat)
    requires Exec(cfg, before).Some? && Exec(cfg, before).value.writer.Done?
    requires EndOf(before).Eof?
    requires |Flatten(Sends(before))| == Expected(cfg, Exec(cfg, before).value)
    requires r in Exec(cfg, before).value.readers && !Exec(cfg, before).value.readers[r].pc.Finished?
    requires Exec(cfg, before).value.earliest <= Exec(cfg, before).value.readers[r].cursor
    requires Exec(cfg, before + after).Some? && TimeOut(r) !in after
    requires Exec(cfg, before).value.sized.Some? || forall i :: 0 <= i < |after| ==> !after[i].SetSize?
    ensures
      var s, t := Exec(cfg, before).value, Exec(cfg, before + after).value;
      t == s.(readers := t.readers) && OnlyEofAhead(cfg, t, r)
  {
    TerminalIsTheEnd(cfg, before);
    if after == [] {
      assert before + after == before;
    } else {
      var n := |after| - 1;
      ExecSplit(cfg, before, after);
      FullEofReachesReaders(cfg, before, after[..n], r);
      Reachable(cfg, before + after[..n]);
      SentIsWhatWasSent(cfg, before);
      FlattenSize(Sends(before));
      assert after[n] in after;
      FullEofStep(cfg, Exec(cfg, before + after[..n]).value, after[n], r);
    }
  }

  // ----- two promises that fail, and when -----

  /** The index computed from the value loaded before the lock is off by exactly the number of
      chunks evicted since: it would serve a later chunk. `next_chunk` recomputes it instead. */
  lemma StaleIndexIsOffByTheEvictions(cfg: Config, events: seq<Event>, r: nat)
    requires Exec(cfg, events).Some? && Enabled(cfg, Exec(cfg, events).value, LockedRead(r))
    ensures
      var s := Exec(cfg, events).value;
      s.sent == Sends(events) && OffByTheEvictions(s, s.readers[r])
  {
    Reachable(cfg, events);
    SentIsWhatWasSent(cfg, events);
    StaleIndex(cfg, Exec(cfg, events).value, r);
  }

  ghost predicate OffByTheEvictions(s: State, rd: Reader) {
    && rd.pc.AwaitLock? && rd.pc.earliest <= s.earliest && rd.pc.earliest <= rd.cursor
    && var stale, evicted := rd.cursor - rd.pc.earliest, s.earliest - rd.pc.earliest;
       stale < |s.deque| ==> rd.cursor + evicted < |s.sent| && s.deque[stale] == s.sent[rd.cursor + evicted]
  }

  lemma StaleIndex(cfg: Config, s: State, r: nat)
    requires Inv(cfg, s) && Enabled(cfg, s, LockedRead(r))
    ensures OffByTheEvictions(s, s.readers[r])
  {
    assert ReaderOk(cfg, s, s.readers[r]);
    StaleIndexOf(cfg, s, s.readers[r]);
  }

  lemma StaleIndexOf(cfg: Config, s: State, rd: Reader)
    requires WriterOk(cfg, s) && ReaderOk(cfg, s, rd) && rd.pc.AwaitLock? && !WriteLocked(s)
    ensures OffByTheEvictions(s, rd)
  {
  }

  /** A call of `send` up to where it has counted its chunk. */
  lemma SendAndCount(cfg: Config, events: seq<Event>, s: State, c: Chunk) returns (more: seq<Event>, t: State)
    requires Exec(cfg, events) == Some(s) && Enabled(cfg, s, Send(c)) && s.bytesWritten + |c| <= Expected(cfg, s)
    ensures Exec(cfg, more) == Some(t)
    ensures
      var total := s.bytesWritten + |c|;
      t == s.(deque := s.deque + [c], sent := s.sent + [c], chunkCount := s.chunkCount + 1, bytesWritten := total,
              writer := if total > cfg.window then OverBudget else Notifying)
  {
    more, t := AdmitFirst(cfg, events, s, c);
    more, t := PushAndCount(cfg, more, t, c);
  }

  lemma RaceBegins(cfg: Config, c: Chunk) returns (events: seq<Event>, s: State)
    requires |c| <= cfg.digestSize && |c| <= cfg.window
    ensures Exec(cfg, events) == Some(s)
    ensures s == State([c], 1, |c|, 0, 1, Running, None, Idle, map[0 := Reader(0, 0, [], 0, AwaitLock(0))], [c])
  {
    events, s := SendAndCount(cfg, [], Init(), c);
    events, s := Extend(cfg, events, s, Notify);
    assert s == State([c], 1, |c|, 0, 1, Running, None, Idle, map[], [c]);
    events, s := Join(cfg, events, s);
  }

  lemma Join(cfg: Config, events: seq<Event>, s: State) returns (more: seq<Event>, t: State)
    requires Exec(cfg, events) == Some(s) && s.readers == map[] && s.earliest == 0 < s.chunkCount
    requires s.bytesWritten <= Expected(cfg, s)
    ensures Exec(cfg, more) == Some(t) && t == s.(readers := map[0 := Reader(0, 0, [], 0, AwaitLock(0))])
  {
    more, t := Extend(cfg, events, s, Subscribe(0));
    more, t := LoadUpToTheLock(cfg, more, t, 0);
    assert t.readers == map[0 := Reader(0, 0, [], 0, AwaitLock(0))];
  }

  /** The eviction of one chunk, after the lock was taken. */
  lemma EvictOne(cfg: Config, events: seq<Event>, s: State) returns (more: seq<Event>, t: State)
    requires Exec(cfg, events) == Some(s) && s.writer.OverBudget? && |s.deque| == 2
    requires |s.deque[0]| + |s.deque[1]| > cfg.window >= |s.deque[1]|
    ensures Exec(cfg, more) == Some(t)
    ensures t == s.(deque := s.deque[1..], earliest := s.earliest + 1, writer := Notifying)
  {
    TwoChunks(s.deque);
    more, t := Extend(cfg, events, s, LockForEviction);
    more, t := Extend(cfg, more, t, PopFront);
    more, t := Extend(cfg, more, t, BumpEarliest);
    more, t := Extend(cfg, more, t, StopEvicting);
  }

  lemma TwoChunks(cs: seq<Chunk>)
    requires |cs| == 2
    ensures Bytes(cs) == |cs[0]| + |cs[1]| && Bytes(cs[1..]) == |cs[1]|
  {
    assert cs[1..] == [cs[1]] && cs[1..][1..] == [];
    assert Bytes(cs[1..][1..]) == 0;
  }

  /** The race is real, for any two chunks that do not fit into the window together: the reader, held
      up between its load and the lock, would be served chunk 1 in place of chunk 0. */
  lemma StaleIndexRaceHappens(cfg: Config, c: Chunk, d: Chunk) returns (events: seq<Event>, s: State)
    requires |c| + |d| <= cfg.digestSize && |c| <= cfg.window && |d| <= cfg.window < |c| + |d|
    ensures Exec(cfg, events) == Some(s) && Enabled(cfg, s, LockedRead(0))
    ensures s.readers[0].cursor == 0 && s.readers[0].pc.earliest == 0 && s.earliest == 1
    ensures s.deque == [d] && s.sent == [c, d]
  {
    events, s := RaceBegins(cfg, c);
    events, s := SendAndCount(cfg, events, s, d);
    assert s.deque == s.sent == [c, d];
    events, s := EvictOne(cfg, events, s);
  }

  /** Step `e` makes a call of `next_chunk` return `Ok` with no bytes, which callers take as EOF. */
  predicate RepliesEmpty(cfg: Config, s: State, e: Event)
    requires Enabled(cfg, s, e)
  {
    || (e.LockedRead? && Apply(cfg, s, e).readers[e.r].received == s.readers[e.r].received + [[]])
    || (e.ReadTerminal? && Apply(cfg, s, e).readers[e.r].pc.Finished?
        && Apply(cfg, s, e).readers[e.r].pc.outcome.Complete?)
  }

  /** The step hands out a chunk that was sent empty. */
  predicate HandsOutEmptyChunk(s: State, e: Event, sent: seq<Chunk>) {
    e.LockedRead? && e.r in s.readers && s.earliest <= s.readers[e.r].cursor < |sent| && sent[s.readers[e.r].cursor] == []
  }

  /** The step concludes that the writer has ended with at least the expected size. */
  predicate ConcludesEof(cfg: Config, s: State, e: Event, sent: seq<Chunk>, end: Terminal) {
    e.ReadTerminal? && e.r in s.readers && s.readers[e.r].cursor == |sent| && end.Eof? && |Flatten(sent)| >= Expected(cfg, s)
  }

  /** A locked read replies with nothing exactly when the chunk at the cursor, still in the window, was
      sent empty. */
  lemma LockedReadEmptyIff(cfg: Config, events: seq<Event>, r: nat)
    requires Exec(cfg, events).Some? && Enabled(cfg, Exec(cfg, events).value, LockedRead(r))
    ensures
      var s := Exec(cfg, events).value;
      RepliesEmpty(cfg, s, LockedRead(r)) <==> HandsOutEmptyChunk(s, LockedRead(r), Sends(events))
  {
    LockedReadFindsItsChunk(cfg, events, r);
    var s := Exec(cfg, events).value;
    var was, now := s.readers[r].received, Apply(cfg, s, LockedRead(r)).readers[r].received;
    if s.earliest <= s.readers[r].cursor {
      SnocInjective(was, Sends(events)[s.readers[r].cursor], was, []);
    } else {
      assert |was + [[]]| == |was| + 1;
    }
  }

  lemma ReadTerminalEmptyIff(cfg: Config, events: seq<Event>, r: nat)
    requires Exec(cfg, events).Some? && Enabled(cfg, Exec(cfg, events).value, ReadTerminal(r))
    ensures
      var s := Exec(cfg, events).value;
      RepliesEmpty(cfg, s, ReadTerminal(r)) <==> ConcludesEof(cfg, s, ReadTerminal(r), Sends(events), EndOf(events))
  {
    Reachable(cfg, events);
    SentIsWhatWasSent(cfg, events);
    FlattenSize(Sends(events));
    TerminalIsTheEnd(cfg, events);
    var s := Exec(cfg, events).value;
    assert ReaderOk(cfg, s, s.readers[r]);
  }

  /** The two ways to an empty reply, exactly. */
  lemma EmptyReplyIff(cfg: Config, events: seq<Event>, e: Event)
    requires Exec(cfg, events).Some? && Enabled(cfg, Exec(cfg, events).value, e)
    ensures
      var s := Exec(cfg, events).value;
      RepliesEmpty(cfg, s, e) <==> HandsOutEmptyChunk(s, e, Sends(events)) || ConcludesEof(cfg, s, e, Sends(events), EndOf(events))
  {
    if e.LockedRead? {
      LockedReadEmptyIff(cfg, events, e.r);
    } else if e.ReadTerminal? {
      ReadTerminalEmptyIff(cfg, events, e.r);
    }
  }

  /** What the source promises of an empty reply: `bytes_written` equals the expected size. */
  predicate KeepsPromise(cfg: Config, s: State, e: Event)
    requires Enabled(cfg, s, e)
  {
    RepliesEmpty(cfg, s, e) ==> s.bytesWritten == Expected(cfg, s)
  }

  /** The promise, exactly: it fails at the steps that hand out an empty chunk while `bytes_written` is
      not the expected size, and at those that conclude although the size was recorded too small; at no
      others. */
  lemma PromiseIff(cfg: Config, events: seq<Event>, e: Event)
    requires Exec(cfg, events).Some? && Enabled(cfg, Exec(cfg, events).value, e)
    ensures
      var s := Exec(cfg, events).value;
      KeepsPromise(cfg, s, e) <==>
      && (HandsOutEmptyChunk(s, e, Sends(events)) ==> s.bytesWritten == Expected(cfg, s))
      && (ConcludesEof(cfg, s, e, Sends(events), EndOf(events)) ==> !Oversized(events))
  {
    EmptyReplyIff(cfg, events, e);
    TerminalIsTheEnd(cfg, events);
    if ConcludesEof(cfg, Exec(cfg, events).value, e, Sends(events), EndOf(events)) { CountedAtTheEnd(cfg, events); }
  }

  /** Once the writer has ended all bytes sent are counted. */
  lemma CountedAtTheEnd(cfg: Config, events: seq<Event>)
    requires Exec(cfg, events).Some? && !Exec(cfg, events).value.terminal.Running?
    ensures
      var s := Exec(cfg, events).value;
      && s.bytesWritten == |Flatten(Sends(events))|
      && (s.bytesWritten > Expected(cfg, s) <==> Oversized(events))
  {
    Reachable(cfg, events);
    AllCounted(cfg, events);
    FlattenSize(Sends(events));
  }

  /** So a writer that sends no empty chunk and records the size first keeps the promise at every step,
      and an empty reply means the end of the whole blob. */
  lemma EmptyReplyMeansEof(cfg: Config, events: seq<Event>, e: Event)
    requires Exec(cfg, events).Some? && Enabled(cfg, Exec(cfg, events).value, e)
    requires [] !in Sends(events) && SizedFirst(events)
    requires RepliesEmpty(cfg, Exec(cfg, events).value, e)
    ensures
      var s := Exec(cfg, events).value;
      EndOf(events).Eof? && s.bytesWritten == |Flatten(Sends(events))| == Expected(cfg, s)
  {
    TerminalIsTheEnd(cfg, events);
    EmptyReplyIff(cfg, events, e);
    SizedFirstIsRight(events);
    CountedAtTheEnd(cfg, events);
  }

  /** After any run in which bytes are still missing, an empty chunk breaks the promise: every reader
      that has caught up is then handed `Ok(empty)`. */
  lemma EmptyChunkLooksLikeEof(cfg: Config, events: seq<Event>, r: nat) returns (more: seq<Event>, t: State)
    requires Exec(cfg, events).Some? && CaughtUp(cfg, Exec(cfg, events).value, r)
    ensures more == events + [Send([])] + [LoadTotal] + [Admit([])] + [Push([])] + [CountChunk]
                    + [LoadEarliest(r)] + [LoadBytes(r)] + [LoadSize(r)] + [LoadCount(r)]
    ensures Exec(cfg, more) == Some(t) && Enabled(cfg, t, LockedRead(r))
    ensures RepliesEmpty(cfg, t, LockedRead(r)) && t.terminal.Running? && t.bytesWritten < Expected(cfg, t)
  {
    Reachable(cfg, events);
    var s := Exec(cfg, events).value;
    assert ReaderOk(cfg, s, s.readers[r]);
    more, t := SendEmpty(cfg, events, s, r);
    more, t := LoadUpToTheLock(cfg, more, t, r);
    SnocInjective(t.readers[r].received, [], t.readers[r].received, []);
  }

  lemma SendEmpty(cfg: Config, events: seq<Event>, s: State, r: nat) returns (more: seq<Event>, t: State)
    requires Exec(cfg, events) == Some(s) && CaughtUp(cfg, s, r) && WriterOk(cfg, s) && s.earliest <= s.chunkCount
    ensures more == events + [Send([])] + [LoadTotal] + [Admit([])] + [Push([])] + [CountChunk] && Exec(cfg, more) == Some(t)
    ensures t == s.(deque := s.deque + [[]], sent := s.sent + [[]], chunkCount := s.chunkCount + 1, writer := Counted(0))
    ensures |s.deque| == s.chunkCount - s.earliest && t.deque[s.chunkCount - s.earliest] == []
  {
    more, t := AdmitFirst(cfg, events, s, []);
    more, t := Extend(cfg, more, t, Push([]));
    more, t := Extend(cfg, more, t, CountChunk);
  }

  lemma LoadUpToTheLock(cfg: Config, events: seq<Event>, s: State, r: nat) returns (more: seq<Event>, t: State)
    requires Exec(cfg, events) == Some(s) && r in s.readers && s.readers[r].pc.Top?
    requires s.earliest <= s.readers[r].cursor < s.chunkCount && s.bytesWritten <= Expected(cfg, s)
    ensures more == events + [LoadEarliest(r)] + [LoadBytes(r)] + [LoadSize(r)] + [LoadCount(r)]
    ensures t == s.(readers := s.readers[r := s.readers[r].(pc := AwaitLock(s.earliest))])
    ensures Exec(cfg, more) == Some(t)
  {
    more, t := LoadThrice(cfg, events, s, r);
    more, t := Extend(cfg, more, t, LoadCount(r));
  }

  /** The writer is between calls, has not ended and has bytes to go; reader `r` has read everything. */
  predicate CaughtUp(cfg: Config, s: State, r: nat) {
    && s.writer.Idle? && s.terminal.Running? && s.bytesWritten < Expected(cfg, s)
    && r in s.readers && s.readers[r].pc.Top? && s.readers[r].cursor == s.chunkCount
  }

  lemma Extend(cfg: Config, events: seq<Event>, s: State, e: Event) returns (more: seq<Event>, t: State)
    requires Exec(cfg, events) == Some(s) && Enabled(cfg, s, e)
    ensures more == events + [e] && t == Apply(cfg, s, e) && Exec(cfg, more) == Some(t)
  {
    more, t := events + [e], Apply(cfg, s, e);
    assert more[..|events|] == events;
  }
}

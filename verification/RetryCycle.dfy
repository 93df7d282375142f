/**
Retrying slow writes that failed, specs/FailedSlowWritesRetry.tla, for any number of blobs: a write
fails or hangs, its blob is queued for retry, and on a live connection the queue is drained into
fresh writes, with or without a budget. The pin of a blob never changes there and is left out.
*/
module RetryCycle {
  import opened Options

  datatype SlowWrite = Idle | InFlight | Acked

  /** `failed` says the blob waits for a retry; `dropped` that it was given up. */
  datatype Blob = Blob(write: SlowWrite, failed: bool, retries: nat, dropped: bool)

  /** `unbounded` is BugMode. */
  datatype Config = Config(blobs: nat, maxRetries: nat, unbounded: bool)

  datatype State = State(connected: bool, blobs: seq<Blob>)

  datatype Event = Hang(d: nat) | Succeed(d: nat) | Fail(d: nat) | Retry(d: nat) | DeadLetter(d: nat) | Disconnect | Reconnect

  function Init(c: Config): State {
    State(true, seq(c.blobs, _ => Blob(InFlight, false, 0, false)))
  }

  predicate IsWork(e: Event) {
    !e.Disconnect? && !e.Reconnect?
  }

  predicate MayRetry(c: Config, b: Blob) {
    c.unbounded || b.retries < c.maxRetries
  }

  predicate CanWork(c: Config, connected: bool, b: Blob, e: Event) {
    match e
    case Hang(_) => b.write == InFlight && !b.failed
    case Succeed(_) => b.write == InFlight
    case Fail(_) => b.write == InFlight
    case Retry(_) => connected && b.failed && b.write != InFlight && MayRetry(c, b)
    case DeadLetter(_) => connected && b.failed && b.write != InFlight && !MayRetry(c, b)
    case _ => false
  }

  predicate Enabled(c: Config, s: State, e: Event) {
    if e.Disconnect? then s.connected
    else if e.Reconnect? then !s.connected
    else e.d < |s.blobs| && CanWork(c, s.connected, s.blobs[e.d], e)
  }

  function After(c: Config, b: Blob, e: Event): Blob
    requires IsWork(e)
  {
    match e
    case Hang(_) => b.(failed := true)
    case Succeed(_) => b.(write := Acked)
    case Fail(_) => b.(write := Idle, failed := true)
    case Retry(_) => b.(write := InFlight, failed := false, retries := if c.unbounded then b.retries else b.retries + 1)
    case DeadLetter(_) => b.(failed := false, dropped := true)
  }

  function Apply(c: Config, s: State, e: Event): State
    requires Enabled(c, s, e)
  {
    if e.Disconnect? then s.(connected := false)
    else if e.Reconnect? then s.(connected := true)
    else s.(blobs := s.blobs[e.d := After(c, s.blobs[e.d], e)])
  }

  function Exec(c: Config, events: seq<Event>): Option<State> {
    if events == [] then Some(Init(c))
    else
      var n := |events| - 1;
      match Exec(c, events[..n])
      case None => None
      case Some(s) => if Enabled(c, s, events[n]) then Some(Apply(c, s, events[n])) else None
  }

  // ----- what a run has come to, by what happened in it -----

  /** The write of blob `d`: what the latest event about it says. */
  function WriteAfter(events: seq<Event>, d: nat): SlowWrite {
    if events == [] then InFlight
    else
      var n := |events| - 1;
      if events[n] == Succeed(d) then Acked
      else if events[n] == Fail(d) then Idle
      else if events[n] == Retry(d) then InFlight
      else WriteAfter(events[..n], d)
  }

  /** Whether the blob waits for a retry. */
  predicate QueuedAfter(events: seq<Event>, d: nat) {
    events != [] &&
    var n := |events| - 1;
    || events[n] == Hang(d) || events[n] == Fail(d)
    || (events[n] != Retry(d) && events[n] != DeadLetter(d) && QueuedAfter(events[..n], d))
  }

  function RetriesOf(events: seq<Event>, d: nat): nat {
    if events == [] then 0 else RetriesOf(events[..|events| - 1], d) + if events[|events| - 1] == Retry(d) then 1 else 0
  }

  predicate ConnectedAfter(events: seq<Event>) {
    events == [] ||
    var n := |events| - 1;
    events[n].Reconnect? || (!events[n].Disconnect? && ConnectedAfter(events[..n]))
  }

  ghost predicate IsAfter(c: Config, s: State, events: seq<Event>, d: nat) {
    && s.connected == ConnectedAfter(events) && |s.blobs| == c.blobs
    && (d < c.blobs ==>
          var b := s.blobs[d];
          && b.write == WriteAfter(events, d) && b.failed == QueuedAfter(events, d)
          && b.retries == (if c.unbounded then 0 else RetriesOf(events, d))
          && (b.dropped <==> DeadLetter(d) in events))
  }

  lemma {:induction false} StateIsAfter(c: Config, events: seq<Event>, d: nat)
    requires Exec(c, events).Some?
    ensures IsAfter(c, Exec(c, events).value, events, d)
  {
    if events != [] {
      var n := |events| - 1;
      StateIsAfter(c, events[..n], d);
      assert events == events[..n] + [events[n]];
    }
  }

  /** What can happen to a blob, exactly: a write in flight succeeds or fails, and may hang once; a
      queued blob that is not in flight is, on a live connection, either retried or given up,
      according to the budget. */
  lemma WorkIff(c: Config, events: seq<Event>, d: nat)
    requires Exec(c, events).Some? && d < c.blobs
    ensures
      var s := Exec(c, events).value;
      var flying, queued := WriteAfter(events, d) == InFlight, QueuedAfter(events, d);
      var ready := ConnectedAfter(events) && queued && !flying;
      var left := c.unbounded || RetriesOf(events, d) < c.maxRetries;
      && (Enabled(c, s, Succeed(d)) <==> flying) && (Enabled(c, s, Fail(d)) <==> flying)
      && (Enabled(c, s, Hang(d)) <==> flying && !queued)
      && (Enabled(c, s, Retry(d)) <==> ready && left) && (Enabled(c, s, DeadLetter(d)) <==> ready && !left)
      && (Enabled(c, s, Disconnect) <==> ConnectedAfter(events)) && (Enabled(c, s, Reconnect) <==> !ConnectedAfter(events))
  {
    StateIsAfter(c, events, d);
  }

  // ----- with a budget, work runs out -----

  function Phase(b: Blob): nat {
    if b.write == InFlight then if b.failed then 2 else 3
    else if b.failed then 1 else 0
  }

  function BlobRank(c: Config, b: Blob): nat {
    (if b.retries <= c.maxRetries then 4 * (c.maxRetries - b.retries) else 0) + Phase(b)
  }

  function Rank(c: Config, blobs: seq<Blob>): nat {
    if blobs == [] then 0 else BlobRank(c, blobs[0]) + Rank(c, blobs[1..])
  }

  lemma {:induction false} RankUpdate(c: Config, blobs: seq<Blob>, d: nat, b: Blob)
    requires d < |blobs|
    ensures Rank(c, blobs[d := b]) == Rank(c, blobs) - BlobRank(c, blobs[d]) + BlobRank(c, b)
  {
    if d > 0 {
      assert blobs[d := b][1..] == blobs[1..][d - 1 := b];
      RankUpdate(c, blobs[1..], d - 1, b);
    } else {
      assert blobs[d := b][1..] == blobs[1..];
    }
  }

  lemma WorkLowersRank(c: Config, s: State, e: Event)
    requires !c.unbounded && Enabled(c, s, e) && IsWork(e)
    ensures Rank(c, Apply(c, s, e).blobs) < Rank(c, s.blobs)
  {
    RankUpdate(c, s.blobs, e.d, After(c, s.blobs[e.d], e));
  }

  function Work(events: seq<Event>): nat {
    if events == [] then 0 else Work(events[..|events| - 1]) + if IsWork(events[|events| - 1]) then 1 else 0
  }

  lemma {:induction false} InitialRank(c: Config, n: nat)
    ensures Rank(c, seq(n, _ => Blob(InFlight, false, 0, false))) == n * (4 * c.maxRetries + 3)
  {
    if n > 0 {
      var all := seq(n, _ => Blob(InFlight, false, 0, false));
      assert all[1..] == seq(n - 1, _ => Blob(InFlight, false, 0, false));
      InitialRank(c, n - 1);
      Distribute(n, 4 * c.maxRetries + 3);
    }
  }

  lemma Distribute(n: nat, k: nat)
    requires n > 0
    ensures n * k == (n - 1) * k + k
  {
  }

  /** With a budget, a run holds at most `4 * maxRetries + 3` steps of work per blob, however often
      the connection comes and goes. */
  lemma {:induction false} WorkIsBounded(c: Config, events: seq<Event>)
    requires !c.unbounded && Exec(c, events).Some?
    ensures Work(events) + Rank(c, Exec(c, events).value.blobs) <= c.blobs * (4 * c.maxRetries + 3)
  {
    if events == [] {
      InitialRank(c, c.blobs);
    } else {
      var n := |events| - 1;
      WorkIsBounded(c, events[..n]);
      if IsWork(events[n]) { WorkLowersRank(c, Exec(c, events[..n]).value, events[n]); }
    }
  }

  /** A blob is settled: nothing is in flight for it and it does not wait for a retry. */
  predicate Settled(b: Blob) {
    b.write != InFlight && !b.failed
  }

  ghost predicate BlobInv(c: Config, b: Blob) {
    && (b.write == Idle && !b.failed ==> b.dropped)
    && (b.dropped ==> !c.unbounded && b.retries >= c.maxRetries)
    && (!c.unbounded ==> b.retries <= c.maxRetries)
  }

  lemma {:induction false} Reachable(c: Config, events: seq<Event>, d: nat)
    requires Exec(c, events).Some? && d < c.blobs
    ensures |Exec(c, events).value.blobs| == c.blobs && BlobInv(c, Exec(c, events).value.blobs[d])
  {
    if events != [] { Reachable(c, events[..|events| - 1], d); }
  }

  /** While the worker is connected and a blob is not settled, some work can be done on it; a settled
      blob is on the server or was given up after all its retries. */
  lemma WorkUntilSettled(c: Config, events: seq<Event>, d: nat) returns (e: Event)
    requires Exec(c, events).Some? && Exec(c, events).value.connected && d < c.blobs
    ensures d < |Exec(c, events).value.blobs|
    ensures
      var b := Exec(c, events).value.blobs[d];
      if Settled(b) then b.write == Acked || (b.dropped && b.retries == c.maxRetries)
      else IsWork(e) && e.d == d && Enabled(c, Exec(c, events).value, e)
  {
    Reachable(c, events, d);
    var b := Exec(c, events).value.blobs[d];
    e := if b.write == InFlight then Fail(d) else if MayRetry(c, b) then Retry(d) else DeadLetter(d);
  }

  // ----- without a budget, it does not -----

  /** Failing and retrying leads back to the same state. */
  lemma CycleReturns(c: Config, s: State, d: nat)
    requires c.unbounded && s.connected && d < |s.blobs| && s.blobs[d].write == InFlight && !s.blobs[d].failed
    ensures Enabled(c, s, Fail(d)) && Enabled(c, Apply(c, s, Fail(d)), Retry(d))
    ensures Apply(c, Apply(c, s, Fail(d)), Retry(d)) == s
  {
    var t := Apply(c, s, Fail(d));
    assert t.blobs[d] == s.blobs[d].(write := Idle, failed := true);
    assert Apply(c, t, Retry(d)).blobs == s.blobs;
  }

  lemma ExecSnoc(c: Config, events: seq<Event>, e: Event)
    requires Exec(c, events).Some? && Enabled(c, Exec(c, events).value, e)
    ensures Exec(c, events + [e]) == Some(Apply(c, Exec(c, events).value, e))
    ensures Work(events + [e]) == Work(events) + if IsWork(e) then 1 else 0
  {
    assert (events + [e])[..|events|] == events;
  }

  lemma {:induction false} CycleRepeats(c: Config, n: nat) returns (events: seq<Event>)
    requires c.unbounded && c.blobs > 0
    ensures Exec(c, events) == Some(Init(c)) && Work(events) == 2 * n
  {
    events := [];
    if n > 0 {
      events := CycleRepeats(c, n - 1);
      CycleReturns(c, Init(c), 0);
      ExecSnoc(c, events, Fail(0));
      ExecSnoc(c, events + [Fail(0)], Retry(0));
      events := events + [Fail(0)] + [Retry(0)];
    }
  }

  ghost predicate Bounded(c: Config, limit: nat) {
    forall events :: Exec(c, events).Some? ==> Work(events) <= limit
  }

  /** Work is bounded if and only if there is a budget. */
  lemma BoundedIffBudget(c: Config)
    requires c.blobs > 0
    ensures (exists limit: nat :: Bounded(c, limit)) <==> !c.unbounded
  {
    if !c.unbounded {
      var limit := c.blobs * (4 * c.maxRetries + 3);
      forall events | Exec(c, events).Some? ensures Work(events) <= limit { WorkIsBounded(c, events); }
      assert Bounded(c, limit);
    } else {
      forall limit: nat ensures !Bounded(c, limit) {
        var events := CycleRepeats(c, limit + 1);
      }
    }
  }
}

/**
Pins and their release, specs/MarkStableViaBlobsAvailable.tla: a worker pins what it writes and
reports its cache to the server; the server marks reported blobs that it holds as stable; a
broadcast of the stable blobs makes the worker unpin. The stable blobs sit in a leaf store behind
a chain of wrappers, specs/TraitDefaultNoop.tla.
*/
module MarkStable {
  import opened Options
  import opened SeqLemmas

  type Digest = nat

  datatype Msg = Evicted(digest: Digest) | Register(digest: Digest) | Advert(digest: Digest)

  /** A store in front of the leaf store: which of `mark_stable` and `drain_stable_digests` it passes
      on. The two are declared apart, so that each can be swallowed alone. */
  datatype Wrapper = Wrapper(marks: bool, drains: bool)

  /** `fixed` is FixV140. */
  datatype Config = Config(digests: set<Digest>, fixed: bool, chain: seq<Wrapper>)

  datatype State = State(
    has: set<Digest>,        // in the worker's cache
    pins: set<Digest>,
    server: set<Digest>,     // in the server's store
    locality: set<Digest>,   // what the server believes the worker has
    stable: seq<Digest>,     // the leaf store's queue of stable blobs
    bis: seq<Digest>,        // broadcast, not yet delivered
    pending: set<Digest>,    // still to be written
    unsent: set<Digest>,     // written, not yet reported
    queue: seq<Msg>)         // worker to server

  datatype Event = Write(d: Digest) | Notify(d: Digest) | Evict(d: Digest) | Process | Drain | Deliver(i: nat)

  function Init(c: Config): State {
    State({}, {}, {}, {}, [], [], c.digests, {}, [])
  }

  /** `mark_stable` through the chain. */
  function Mark(chain: seq<Wrapper>, stable: seq<Digest>, d: Digest): seq<Digest> {
    if chain == [] then stable + [d]
    else if chain[0].marks then Mark(chain[1..], stable, d)
    else stable
  }

  /** `drain_stable_digests` through the chain: what is returned, and what stays in the leaf. */
  function Drained(chain: seq<Wrapper>, stable: seq<Digest>): (seq<Digest>, seq<Digest>) {
    if chain == [] then (stable, [])
    else if chain[0].drains then Drained(chain[1..], stable)
    else ([], stable)
  }

  predicate Enabled(s: State, e: Event) {
    match e
    case Write(d) => d in s.pending && d !in s.pins
    case Notify(d) => d in s.unsent
    case Evict(d) => d in s.has
    case Process => s.queue != []
    case Drain => s.stable != []
    case Deliver(i) => i < |s.bis|
  }

  function Receive(c: Config, s: State, m: Msg): State {
    match m
    case Evicted(d) => s.(locality := s.locality - {d})
    case Register(d) => Report(c, s, d)
    case Advert(d) => Report(c, s, d)
  }

  function Report(c: Config, s: State, d: Digest): State {
    s.(locality := s.locality + {d}, stable := if d in s.server then Mark(c.chain, s.stable, d) else s.stable)
  }

  function Apply(c: Config, s: State, e: Event): State
    requires Enabled(s, e)
  {
    match e
    case Write(d) => s.(
      has := s.has + {d}, pins := s.pins + {d}, pending := s.pending - {d},
      server := s.server + {d}, unsent := s.unsent + {d})
    case Notify(d) => s.(
      unsent := s.unsent - {d},
      queue := if !c.fixed then s.queue + [Register(d)] else if d in s.has then s.queue + [Advert(d)] else s.queue)
    case Evict(d) => s.(has := s.has - {d}, pins := s.pins - {d}, queue := s.queue + [Evicted(d)])
    case Process => Receive(c, s.(queue := s.queue[1..]), s.queue[0])
    case Drain =>
      var (out, left) := Drained(c.chain, s.stable);
      s.(bis := s.bis + out, stable := left)
    case Deliver(i) => s.(bis := s.bis[..i] + s.bis[i + 1..], pins := s.pins - {s.bis[i]})
  }

  function Exec(c: Config, events: seq<Event>): Option<State> {
    if events == [] then Some(Init(c))
    else
      var n := |events| - 1;
      match Exec(c, events[..n])
      case None => None
      case Some(s) => if Enabled(s, events[n]) then Some(Apply(c, s, events[n])) else None
  }

  ghost predicate AllMark(chain: seq<Wrapper>) {
    forall i :: 0 <= i < |chain| ==> chain[i].marks
  }

  ghost predicate AllDrain(chain: seq<Wrapper>) {
    forall i :: 0 <= i < |chain| ==> chain[i].drains
  }

  /** A mark reaches the leaf store if every wrapper passes it on, and is swallowed otherwise. */
  lemma {:induction false} MarkThrough(chain: seq<Wrapper>, stable: seq<Digest>, d: Digest)
    ensures Mark(chain, stable, d) == if AllMark(chain) then stable + [d] else stable
  {
    if chain != [] {
      MarkThrough(chain[1..], stable, d);
      assert chain == [chain[0]] + chain[1..];
      assert AllMark(chain) <==> chain[0].marks && AllMark(chain[1..]);
    }
  }

  /** A drain empties the leaf's queue if every wrapper passes it on, and returns nothing otherwise. */
  lemma {:induction false} DrainThrough(chain: seq<Wrapper>, stable: seq<Digest>)
    ensures Drained(chain, stable) == if AllDrain(chain) then (stable, []) else ([], stable)
  {
    if chain != [] {
      DrainThrough(chain[1..], stable);
      assert chain == [chain[0]] + chain[1..];
      assert AllDrain(chain) <==> chain[0].drains && AllDrain(chain[1..]);
    }
  }

  // ----- what every step keeps -----

  /** What the server will believe once the queue has been delivered. */
  function Replay(queue: seq<Msg>, locality: set<Digest>): set<Digest> {
    if queue == [] then locality
    else
      var before := Replay(queue[..|queue| - 1], locality);
      match queue[|queue| - 1]
      case Evicted(d) => before - {d}
      case Register(d) => before + {d}
      case Advert(d) => before + {d}
  }

  /** Delivering the head of the queue does not change what the queue leads to. */
  lemma {:induction false} ReplayHead(queue: seq<Msg>, locality: set<Digest>)
    requires queue != []
    ensures Replay(queue, locality) == Replay(queue[1..], Replay(queue[..1], locality))
  {
    var n := |queue| - 1;
    if n > 0 {
      assert queue[..n][1..] == queue[1..][..n - 1] && queue[..n][..1] == queue[..1];
      ReplayHead(queue[..n], locality);
    } else {
      assert queue[1..] == [] && queue[..1] == queue;
    }
  }

  lemma ReplayOne(m: Msg, locality: set<Digest>)
    ensures Replay([m], locality) == if m.Evicted? then locality - {m.digest} else locality + {m.digest}
  {
    assert [m][..0] == [];
  }

  lemma ReplaySnoc(queue: seq<Msg>, m: Msg, locality: set<Digest>)
    ensures
      Replay(queue + [m], locality) ==
        if m.Evicted? then Replay(queue, locality) - {m.digest} else Replay(queue, locality) + {m.digest}
  {
    assert (queue + [m])[..|queue|] == queue;
  }

  /** A pinned blob is on its way to release. */
  predicate Covered(s: State, d: Digest) {
    d in s.unsent || Advert(d) in s.queue || Register(d) in s.queue || d in s.stable || d in s.bis
  }

  /** Who has what, and what the server will believe; `late` are the blobs reported although they
      had been evicted already. */
  ghost predicate Books(c: Config, s: State, late: set<Digest>) {
    && s.pins <= s.has && s.has <= c.digests - s.pending && s.pending <= c.digests
    && s.unsent <= c.digests - s.pending
    && c.digests - s.pending <= s.server
    && (forall m :: m in s.queue ==> m.digest in c.digests - s.pending)
    && late * s.has == {} && late * s.unsent == {} && late <= c.digests - s.pending
    && Replay(s.queue, s.locality) == (s.has - s.unsent) + late
    && (c.fixed ==> late == {})
  }

  /** Every pin is on its way, as long as marks get through. */
  ghost predicate PinsCovered(c: Config, s: State) {
    AllMark(c.chain) ==> forall d :: d in s.pins ==> Covered(s, d)
  }

  ghost predicate Inv(c: Config, s: State, late: set<Digest>) {
    Books(c, s, late) && PinsCovered(c, s)
  }

  ghost function Late(c: Config, s: State, e: Event, late: set<Digest>): set<Digest> {
    if e.Notify? && !c.fixed && e.d !in s.has then late + {e.d} else late
  }

  lemma WriteKeeps(c: Config, s: State, d: Digest, late: set<Digest>)
    requires Books(c, s, late) && Enabled(s, Write(d))
    ensures Books(c, Apply(c, s, Write(d)), late)
  {
  }

  lemma NotifyKeeps(c: Config, s: State, d: Digest, late: set<Digest>)
    requires Books(c, s, late) && Enabled(s, Notify(d))
    ensures Books(c, Apply(c, s, Notify(d)), Late(c, s, Notify(d), late))
  {
    NotifyKeepsQueue(c, s, d, late);
    NotifyKeepsReplay(c, s, d, late);
  }

  lemma NotifyKeepsQueue(c: Config, s: State, d: Digest, late: set<Digest>)
    requires Books(c, s, late) && Enabled(s, Notify(d))
    ensures forall m :: m in Apply(c, s, Notify(d)).queue ==> m.digest in c.digests - s.pending
  {
  }

  lemma NotifyKeepsReplay(c: Config, s: State, d: Digest, late: set<Digest>)
    requires Books(c, s, late) && Enabled(s, Notify(d))
    ensures
      var t := Apply(c, s, Notify(d));
      Replay(t.queue, s.locality) == (s.has - (s.unsent - {d})) + Late(c, s, Notify(d), late)
  {
    if !c.fixed {
      ReplaySnoc(s.queue, Register(d), s.locality);
    } else {
      ReplaySnoc(s.queue, Advert(d), s.locality);
    }
  }

  lemma EvictKeeps(c: Config, s: State, d: Digest, late: set<Digest>)
    requires Books(c, s, late) && Enabled(s, Evict(d))
    ensures Books(c, Apply(c, s, Evict(d)), late)
  {
    ReplaySnoc(s.queue, Evicted(d), s.locality);
    assert d in late ==> d in late * s.has;
    assert (s.has - s.unsent) + late - {d} == (s.has - {d} - s.unsent) + late;
  }

  lemma ProcessKeeps(c: Config, s: State, late: set<Digest>)
    requires Books(c, s, late) && Enabled(s, Process)
    ensures Books(c, Apply(c, s, Process), late)
  {
    var m := s.queue[0];
    assert s.queue[..1] == [m];
    ReplayHead(s.queue, s.locality);
    ReplayOne(m, s.locality);
  }

  lemma StepKeepsBooks(c: Config, s: State, e: Event, late: set<Digest>)
    requires Books(c, s, late) && Enabled(s, e)
    ensures Books(c, Apply(c, s, e), Late(c, s, e, late))
  {
    match e
    case Write(d) => WriteKeeps(c, s, d, late);
    case Notify(d) => NotifyKeeps(c, s, d, late);
    case Evict(d) => EvictKeeps(c, s, d, late);
    case Process => ProcessKeeps(c, s, late);
    case Drain =>
    case Deliver(i) =>
  }

  lemma NotifyCovers(c: Config, s: State, d: Digest, x: Digest)
    requires Enabled(s, Notify(d)) && Covered(s, x) && x in s.has
    ensures Covered(Apply(c, s, Notify(d)), x)
  {
    var t := Apply(c, s, Notify(d));
    if x == d { assert t.queue[|s.queue|] == if c.fixed then Advert(d) else Register(d); }
  }

  lemma ProcessCovers(c: Config, s: State, x: Digest)
    requires Enabled(s, Process) && AllMark(c.chain) && Covered(s, x) && x in s.server
    ensures Covered(Apply(c, s, Process), x)
  {
    var m := s.queue[0];
    assert s.queue == [m] + s.queue[1..];
    MarkThrough(c.chain, s.stable, m.digest);
    if !m.Evicted? && m.digest == x { assert (s.stable + [x])[|s.stable|] == x; }
  }

  lemma DrainCovers(c: Config, s: State, x: Digest)
    requires Enabled(s, Drain) && Covered(s, x)
    ensures Covered(Apply(c, s, Drain), x)
  {
    DrainThrough(c.chain, s.stable);
  }

  lemma DeliverCovers(c: Config, s: State, i: nat, x: Digest)
    requires Enabled(s, Deliver(i)) && Covered(s, x) && x != s.bis[i]
    ensures Covered(Apply(c, s, Deliver(i)), x)
  {
    SplitAround(s.bis, i);
    if x in s.bis { assert x in s.bis[..i] || x in s.bis[i + 1..]; }
  }

  lemma StepKeepsCover(c: Config, s: State, e: Event, late: set<Digest>)
    requires Inv(c, s, late) && Enabled(s, e)
    ensures PinsCovered(c, Apply(c, s, e))
  {
    var t := Apply(c, s, e);
    if AllMark(c.chain) {
      forall x | x in t.pins ensures Covered(t, x) {
        match e
        case Write(d) =>
        case Notify(d) => NotifyCovers(c, s, d, x);
        case Evict(d) =>
        case Process => ProcessCovers(c, s, x);
        case Drain => DrainCovers(c, s, x);
        case Deliver(i) => DeliverCovers(c, s, i, x);
      }
    }
  }

  /** The blobs that a run reports after it evicted them. */
  ghost function LateOf(c: Config, events: seq<Event>): set<Digest>
    requires Exec(c, events).Some?
  {
    if events == [] then {}
    else
      var n := |events| - 1;
      Late(c, Exec(c, events[..n]).value, events[n], LateOf(c, events[..n]))
  }

  lemma {:induction false} Reachable(c: Config, events: seq<Event>)
    requires Exec(c, events).Some?
    ensures Inv(c, Exec(c, events).value, LateOf(c, events))
  {
    if events != [] {
      var n := |events| - 1;
      Reachable(c, events[..n]);
      StepKeepsBooks(c, Exec(c, events[..n]).value, events[n], LateOf(c, events[..n]));
      StepKeepsCover(c, Exec(c, events[..n]).value, events[n], LateOf(c, events[..n]));
    }
  }

  // ----- what has been reported -----

  /** Applying the undelivered reports to what the server believes gives what the worker holds and
      has reported, plus what was reported too late. */
  lemma UndeliveredReportsComplete(c: Config, events: seq<Event>)
    requires Exec(c, events).Some?
    ensures
      var s := Exec(c, events).value;
      && Replay(s.queue, s.locality) == (s.has - s.unsent) + LateOf(c, events)
      && (c.fixed ==> Replay(s.queue, s.locality) == s.has - s.unsent)
  {
    Reachable(c, events);
  }

  /** Everything has been written, reported and processed. */
  predicate Reported(s: State) {
    s.pending == {} && s.unsent == {} && s.queue == []
  }

  /** No eviction is lost, exactly when no blob is reported after its eviction; with the fix none is. */
  lemma NoLostEviction(c: Config, events: seq<Event>)
    requires Exec(c, events).Some? && Reported(Exec(c, events).value)
    ensures
      var s := Exec(c, events).value;
      && (s.locality == s.has <==> LateOf(c, events) == {})
      && (c.fixed ==> s.locality == s.has)
  {
    Reachable(c, events);
    var s, late := Exec(c, events).value, LateOf(c, events);
    assert s.locality == s.has + late;
    if late != {} {
      var d :| d in late;
      assert d in late && d !in late * s.has;
    }
  }

  // ----- every run moves a bounded number of times, and can be brought to its end -----

  function Weight(queue: seq<Msg>): nat {
    if queue == [] then 0 else Weight(queue[..|queue| - 1]) + if queue[|queue| - 1].Evicted? then 1 else 3
  }

  lemma WeightSnoc(queue: seq<Msg>, m: Msg)
    ensures Weight(queue + [m]) == Weight(queue) + if m.Evicted? then 1 else 3
  {
    assert (queue + [m])[..|queue|] == queue;
  }

  lemma {:induction false} WeightHead(queue: seq<Msg>)
    requires queue != []
    ensures Weight(queue) == Weight(queue[1..]) + if queue[0].Evicted? then 1 else 3
  {
    var n := |queue| - 1;
    if n > 0 {
      assert queue[..n][1..] == queue[1..][..n - 1];
      WeightHead(queue[..n]);
    } else {
      assert queue[1..] == [] && queue[..n] == [];
    }
  }

  ghost function Rank(s: State): nat {
    7 * |s.pending| + 4 * |s.unsent| + 2 * |s.has| + Weight(s.queue) + 2 * |s.stable| + |s.bis|
  }

  lemma Plus(a: set<Digest>, d: Digest)
    ensures |a + {d}| <= |a| + 1
  {
    if d in a { assert a + {d} == a; }
  }

  lemma Minus(a: set<Digest>, d: Digest)
    requires d in a
    ensures |a - {d}| == |a| - 1
  {
  }

  /** A step lowers the rank, unless it is a drain that a wrapper swallows; that one changes nothing. */
  lemma StepMovesOrNot(c: Config, s: State, e: Event)
    requires Enabled(s, e)
    ensures if e.Drain? && !AllDrain(c.chain) then Apply(c, s, e) == s else Rank(Apply(c, s, e)) < Rank(s)
  {
    match e
    case Write(d) =>
      Plus(s.has, d);
      Plus(s.unsent, d);
      Minus(s.pending, d);
    case Notify(d) =>
      Minus(s.unsent, d);
      WeightSnoc(s.queue, Register(d));
      WeightSnoc(s.queue, Advert(d));
    case Evict(d) =>
      Minus(s.has, d);
      WeightSnoc(s.queue, Evicted(d));
    case Process =>
      WeightHead(s.queue);
      MarkThrough(c.chain, s.stable, s.queue[0].digest);
    case Drain =>
      DrainThrough(c.chain, s.stable);
      assert !AllDrain(c.chain) ==> s.bis + [] == s.bis;
    case Deliver(i) =>
  }

  /** The steps of a run that change the state. */
  function Moves(c: Config, events: seq<Event>): nat
    requires Exec(c, events).Some?
  {
    if events == [] then 0
    else
      var n := |events| - 1;
      Moves(c, events[..n]) + if Exec(c, events) != Exec(c, events[..n]) then 1 else 0
  }

  /** The last two states of a run. */
  lemma LastStep(c: Config, events: seq<Event>, n: nat) returns (s: State, t: State)
    requires Exec(c, events).Some? && n == |events| - 1
    ensures Exec(c, events[..n]) == Some(s) && Exec(c, events) == Some(t)
    ensures Moves(c, events) == Moves(c, events[..n]) + if t != s then 1 else 0
    ensures Rank(t) + (if t != s then 1 else 0) <= Rank(s) && (AllDrain(c.chain) ==> t != s)
  {
    s, t := Exec(c, events[..n]).value, Exec(c, events).value;
    StepMovesOrNot(c, s, events[n]);
  }

  /** Whatever the chain, no run moves more than seven times per blob; if drains get through, every
      step is a move. */
  lemma {:induction false} RunsAreBounded(c: Config, events: seq<Event>)
    requires Exec(c, events).Some?
    ensures Moves(c, events) + Rank(Exec(c, events).value) <= 7 * |c.digests|
    ensures AllDrain(c.chain) ==> Moves(c, events) == |events|
  {
    if events != [] {
      var n := |events| - 1;
      RunsAreBounded(c, events[..n]);
      var s, t := LastStep(c, events, n);
    }
  }

  /** No step other than an eviction changes anything any more. */
  ghost predicate Final(c: Config, s: State) {
    forall e :: Enabled(s, e) && !e.Evict? ==> Apply(c, s, e) == s
  }

  /** A step that moves, as long as there is one. */
  lemma NextMove(c: Config, events: seq<Event>) returns (e: Event)
    requires Exec(c, events).Some?
    requires
      var s := Exec(c, events).value;
      !Reported(s) || s.bis != [] || (s.stable != [] && AllDrain(c.chain))
    ensures Enabled(Exec(c, events).value, e) && !e.Evict? && (e.Drain? ==> AllDrain(c.chain))
  {
    Reachable(c, events);
    var s := Exec(c, events).value;
    if s.pending != {} {
      var d :| d in s.pending;
      e := Write(d);
    } else if s.unsent != {} {
      var d :| d in s.unsent;
      e := Notify(d);
    } else if s.queue != [] {
      e := Process;
    } else if s.bis != [] {
      e := Deliver(0);
    } else {
      e := Drain;
    }
  }

  /** A run has come to its end exactly when everything is reported and broadcast, and what the leaf
      store still holds cannot be drained. */
  lemma FinalIff(c: Config, events: seq<Event>)
    requires Exec(c, events).Some?
    ensures
      var s := Exec(c, events).value;
      Final(c, s) <==> Reported(s) && s.bis == [] && (s.stable == [] || !AllDrain(c.chain))
  {
    var s := Exec(c, events).value;
    if Reported(s) && s.bis == [] && (s.stable == [] || !AllDrain(c.chain)) {
      forall e | Enabled(s, e) && !e.Evict? ensures Apply(c, s, e) == s { StepMovesOrNot(c, s, e); }
    } else {
      var e := NextMove(c, events);
      StepMovesOrNot(c, s, e);
    }
  }

  lemma ExecSnoc(c: Config, events: seq<Event>, e: Event)
    requires Exec(c, events).Some? && Enabled(Exec(c, events).value, e)
    ensures Exec(c, events + [e]) == Some(Apply(c, Exec(c, events).value, e))
  {
    assert (events + [e])[..|events|] == events;
  }

  predicate NoEviction(events: seq<Event>) {
    forall i :: 0 <= i < |events| ==> !events[i].Evict?
  }

  /** Whatever the chain, every run can be brought to its end without further evictions. */
  lemma {:induction false} Complete(c: Config, events: seq<Event>) returns (more: seq<Event>)
    requires Exec(c, events).Some?
    ensures Exec(c, events + more).Some? && Final(c, Exec(c, events + more).value) && NoEviction(more)
    decreases Rank(Exec(c, events).value)
  {
    FinalIff(c, events);
    if Final(c, Exec(c, events).value) {
      more := [];
      assert events + [] == events;
    } else {
      var e := NextMove(c, events);
      ExecSnoc(c, events, e);
      StepMovesOrNot(c, Exec(c, events).value, e);
      var rest := Complete(c, events + [e]);
      more := [e] + rest;
      Associate(events, [e], rest);
    }
  }

  lemma {:induction false} NothingLeaves(c: Config, events: seq<Event>)
    requires Exec(c, events).Some? && NoEviction(events)
    ensures Exec(c, events).value.has == c.digests - Exec(c, events).value.pending
  {
    if events != [] {
      NothingLeaves(c, events[..|events| - 1]);
      Reachable(c, events[..|events| - 1]);
    }
  }

  // ----- release -----

  /** With a chain of any depth that passes on both calls, a run that has come to its end holds no pin. */
  lemma EveryPinIsReleased(c: Config, events: seq<Event>)
    requires Exec(c, events).Some? && AllMark(c.chain) && AllDrain(c.chain) && Final(c, Exec(c, events).value)
    ensures Exec(c, events).value.pins == {}
  {
    Reachable(c, events);
    FinalIff(c, events);
    var s := Exec(c, events).value;
    assert forall d :: d in s.pins ==> Covered(s, d);
  }

  /** A wrapper that swallows marks: the leaf store never learns of a stable blob. */
  lemma {:induction false} SwallowedMarks(c: Config, events: seq<Event>)
    requires Exec(c, events).Some? && !AllMark(c.chain)
    ensures var s := Exec(c, events).value; s.stable == [] && s.bis == [] && s.pins == s.has
  {
    if events != [] {
      var n := |events| - 1;
      SwallowedMarks(c, events[..n]);
      var s := Exec(c, events[..n]).value;
      if events[n].Process? { MarkThrough(c.chain, s.stable, s.queue[0].digest); }
    }
  }

  /** A wrapper that swallows drains: blobs are marked stable, but nothing is ever broadcast. */
  lemma {:induction false} SwallowedDrains(c: Config, events: seq<Event>)
    requires Exec(c, events).Some? && !AllDrain(c.chain)
    ensures var s := Exec(c, events).value; s.bis == [] && s.pins == s.has
  {
    if events != [] {
      var n := |events| - 1;
      SwallowedDrains(c, events[..n]);
      DrainThrough(c.chain, Exec(c, events[..n]).value.stable);
    }
  }

  /** The trace of a swallowed drain: the blob waits in the leaf store, pinned, and draining changes
      nothing. */
  lemma SwallowedDrainHappens(c: Config, d: Digest) returns (events: seq<Event>)
    requires c.fixed && d in c.digests && AllMark(c.chain) && !AllDrain(c.chain)
    ensures events == [] + [Write(d)] + [Notify(d)] + [Process] && Exec(c, events).Some?
    ensures var s := Exec(c, events).value; s.stable == [d] && d in s.pins && Apply(c, s, Drain) == s
  {
    var r1, s1 := Extend(c, [], Init(c), Write(d));
    var r2, s2 := Extend(c, r1, s1, Notify(d));
    var r3, s3 := Extend(c, r2, s2, Process);
    ReportedIsMarked(c, s2, d);
    StepMovesOrNot(c, s3, Drain);
    events := r3;
  }

  lemma Extend(c: Config, events: seq<Event>, s: State, e: Event) returns (more: seq<Event>, t: State)
    requires Exec(c, events) == Some(s) && Enabled(s, e)
    ensures more == events + [e] && t == Apply(c, s, e) && Exec(c, more) == Some(t)
  {
    ExecSnoc(c, events, e);
    more, t := events + [e], Apply(c, s, e);
  }

  lemma ReportedIsMarked(c: Config, s: State, d: Digest)
    requires AllMark(c.chain) && s.queue == [Advert(d)] && d in s.server && s.stable == []
    ensures Apply(c, s, Process).stable == [d] && Apply(c, s, Process).pins == s.pins
  {
    MarkThrough(c.chain, [], d);
  }

  /** With either call swallowed a pin is held for good: no continuation releases it, short of
      evicting the blob. */
  lemma {:induction false} PinsAreForever(c: Config, before: seq<Event>, after: seq<Event>, d: Digest)
    requires !AllMark(c.chain) || !AllDrain(c.chain)
    requires Exec(c, before + after).Some? && Evict(d) !in after
    ensures Exec(c, before).Some? && (d in Exec(c, before).value.pins ==> d in Exec(c, before + after).value.pins)
    decreases |after|
  {
    if after == [] {
      assert before + after == before;
    } else {
      var n := |after| - 1;
      assert (before + after)[..|before + after| - 1] == before + after[..n];
      PinsAreForever(c, before, after[..n], d);
      assert after[n] != Evict(d);
      if AllDrain(c.chain) { SwallowedMarks(c, before + after[..n]); } else { SwallowedDrains(c, before + after[..n]); }
    }
  }

  ghost predicate AlwaysReleased(c: Config) {
    forall events :: Exec(c, events).Some? && Final(c, Exec(c, events).value) ==> Exec(c, events).value.pins == {}
  }

  /** Every run that comes to its end has released its pins if and only if every wrapper passes on
      both calls. */
  lemma ReleasedIffAllDelegate(c: Config)
    requires c.digests != {}
    ensures AlwaysReleased(c) <==> AllMark(c.chain) && AllDrain(c.chain)
  {
    if AllMark(c.chain) && AllDrain(c.chain) {
      forall events | Exec(c, events).Some? && Final(c, Exec(c, events).value)
        ensures Exec(c, events).value.pins == {}
      {
        EveryPinIsReleased(c, events);
      }
    } else {
      var all := Complete(c, []);
      assert [] + all == all;
      if AllDrain(c.chain) { SwallowedMarks(c, all); } else { SwallowedDrains(c, all); }
      NothingLeaves(c, all);
      FinalIff(c, all);
      assert Exec(c, all).value.pins == c.digests;
    }
  }

  // ----- who holds and pins what, by what has happened -----

  /** The blobs whose broadcast has reached the worker. */
  function Delivered(c: Config, events: seq<Event>): set<Digest>
    requires Exec(c, events).Some?
  {
    if events == [] then {}
    else
      var n := |events| - 1;
      Delivered(c, events[..n]) + if events[n].Deliver? then {Exec(c, events[..n]).value.bis[events[n].i]} else {}
  }

  ghost predicate HistoryOk(c: Config, s: State, events: seq<Event>, delivered: set<Digest>, d: Digest) {
    var written, evicted := Write(d) in events, Evict(d) in events;
    && (d in s.pending <==> d in c.digests && !written) && (d in s.server <==> written)
    && (d in s.has <==> written && !evicted)
    && (d in s.pins <==> written && !evicted && d !in delivered)
    && (evicted || d in delivered || Covered(s, d) ==> written)
  }

  lemma WriteStep(c: Config, s: State, x: Digest, events: seq<Event>, delivered: set<Digest>, d: Digest)
    requires Enabled(s, Write(x)) && HistoryOk(c, s, events, delivered, d)
    ensures HistoryOk(c, Apply(c, s, Write(x)), events + [Write(x)], delivered, d)
  {
  }

  lemma ProcessStep(c: Config, s: State, events: seq<Event>, delivered: set<Digest>, d: Digest)
    requires Enabled(s, Process) && HistoryOk(c, s, events, delivered, d)
    ensures HistoryOk(c, Apply(c, s, Process), events + [Process], delivered, d)
  {
    MarkThrough(c.chain, s.stable, s.queue[0].digest);
    assert s.queue == [s.queue[0]] + s.queue[1..];
  }

  lemma OtherStep(c: Config, s: State, e: Event, events: seq<Event>, delivered: set<Digest>, d: Digest)
    requires Enabled(s, e) && HistoryOk(c, s, events, delivered, d) && !e.Write? && !e.Process?
    ensures HistoryOk(c, Apply(c, s, e), events + [e], delivered + (if e.Deliver? then {s.bis[e.i]} else {}), d)
  {
    if e.Drain? { DrainThrough(c.chain, s.stable); }
    if e.Deliver? { SplitAround(s.bis, e.i); }
  }

  lemma {:induction false} HistoryHolds(c: Config, events: seq<Event>, d: Digest)
    requires Exec(c, events).Some?
    ensures HistoryOk(c, Exec(c, events).value, events, Delivered(c, events), d)
  {
    if events != [] {
      var n := |events| - 1;
      var s, e := Exec(c, events[..n]).value, events[n];
      HistoryHolds(c, events[..n], d);
      assert events == events[..n] + [e];
      if e.Write? {
        WriteStep(c, s, e.d, events[..n], Delivered(c, events[..n]), d);
      } else if e.Process? {
        ProcessStep(c, s, events[..n], Delivered(c, events[..n]), d);
      } else {
        OtherStep(c, s, e, events[..n], Delivered(c, events[..n]), d);
      }
    }
  }

  /** A blob is in the cache from its write to its eviction, and pinned from its write until it is evicted
      or its own broadcast is delivered; what is broadcast was written. */
  lemma PinnedIff(c: Config, events: seq<Event>, d: Digest)
    requires Exec(c, events).Some?
    ensures
      var s := Exec(c, events).value;
      && (d in s.has <==> Write(d) in events && Evict(d) !in events)
      && (d in s.pins <==> Write(d) in events && Evict(d) !in events && d !in Delivered(c, events))
      && (d in Delivered(c, events) ==> Write(d) in events)
  {
    HistoryHolds(c, events, d);
  }

  // ----- agreement -----

  lemma {:induction false} ExecPrefix(c: Config, events: seq<Event>, more: seq<Event>)
    requires Exec(c, events + more).Some?
    ensures Exec(c, events).Some? && LateOf(c, events) <= LateOf(c, events + more)
    decreases |more|
  {
    if more == [] {
      assert events + more == events;
    } else {
      var n := |more| - 1;
      assert (events + more)[..|events + more| - 1] == events + more[..n];
      ExecPrefix(c, events, more[..n]);
    }
  }

  /** Without the fix a blob evicted before it is registered is late. */
  lemma LateHappens(c: Config, d: Digest) returns (events: seq<Event>)
    requires !c.fixed && d in c.digests
    ensures Exec(c, events).Some? && d in LateOf(c, events)
  {
    var r1, s1 := Extend(c, [], Init(c), Write(d));
    var r2, s2 := Extend(c, r1, s1, Evict(d));
    var r3, s3 := Extend(c, r2, s2, Notify(d));
    events := r3;
    assert events[..|events| - 1] == r2;
  }

  ghost predicate AlwaysAgrees(c: Config) {
    forall events :: Exec(c, events).Some? && Final(c, Exec(c, events).value) ==>
      Exec(c, events).value.locality == Exec(c, events).value.has
  }

  /** Whatever the chain, the server's view agrees with the worker at the end of every run if and only
      if the fix is in. */
  lemma AgreesIffFixed(c: Config)
    requires c.digests != {}
    ensures AlwaysAgrees(c) <==> c.fixed
  {
    if c.fixed {
      forall events | Exec(c, events).Some? && Final(c, Exec(c, events).value)
        ensures Exec(c, events).value.locality == Exec(c, events).value.has
      {
        FinalIff(c, events);
        NoLostEviction(c, events);
      }
    } else {
      var d :| d in c.digests;
      var events := LateHappens(c, d);
      var more := Complete(c, events);
      ExecPrefix(c, events, more);
      FinalIff(c, events + more);
      NoLostEviction(c, events + more);
    }
  }
}

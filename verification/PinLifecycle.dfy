/**
Pins before the stable-marking protocol, specs/PinLifecycle.tla: only a fresh upload queues a blob
for the broadcast that unpins it, and the server skips the upload of a blob it already has.
*/
module PinLifecycle {
  import opened Options

  type Digest = nat

  /** `primed` are on the server from the start; `durable` is PinV2: pins have no time to live. */
  datatype Config = Config(digests: set<Digest>, primed: set<Digest>, durable: bool)

  datatype State = State(
    pins: set<Digest>, server: set<Digest>, stable: seq<Digest>, bis: seq<Digest>, pending: set<Digest>)

  datatype Event = Pin(d: Digest) | CacheHit(d: Digest) | Upload(d: Digest) | Drain | Deliver(i: nat) | Expire(d: Digest)

  function Init(c: Config): State {
    State({}, c.primed, [], [], c.digests)
  }

  predicate Enabled(c: Config, s: State, e: Event) {
    match e
    case Pin(d) => d in s.pending && d !in s.pins
    case CacheHit(d) => d in s.pending && d in s.pins && d in s.server
    case Upload(d) => d in s.pending && d in s.pins && d !in s.server
    case Drain => s.stable != []
    case Deliver(i) => i < |s.bis|
    case Expire(d) => !c.durable && d in s.pins
  }

  function Apply(c: Config, s: State, e: Event): State
    requires Enabled(c, s, e)
  {
    match e
    case Pin(d) => s.(pins := s.pins + {d})
    case CacheHit(d) => s.(pending := s.pending - {d})
    case Upload(d) => s.(server := s.server + {d}, stable := s.stable + [d], pending := s.pending - {d})
    case Drain => s.(bis := s.bis + s.stable, stable := [])
    case Deliver(i) => s.(bis := s.bis[..i] + s.bis[i + 1..], pins := s.pins - {s.bis[i]})
    case Expire(d) => s.(pins := s.pins - {d})
  }

  function Exec(c: Config, events: seq<Event>): Option<State> {
    if events == [] then Some(Init(c))
    else
      var n := |events| - 1;
      match Exec(c, events[..n])
      case None => None
      case Some(s) => if Enabled(c, s, events[n]) then Some(Apply(c, s, events[n])) else None
  }

  ghost predicate Inv(c: Config, s: State) {
    && s.pending <= c.digests
    && s.server == c.primed + (c.digests - s.pending)
    && (forall d :: d in s.stable ==> d !in c.primed && d !in s.pending)
    && (forall d :: d in s.bis ==> d !in c.primed && d !in s.pending)
    && (forall d :: d in s.pins ==> d in s.pending || d in c.primed || d in s.stable || d in s.bis)
    && s.pins <= c.digests
    && (c.durable ==> c.primed * c.digests - s.pending <= s.pins)
  }

  lemma StepKeepsInv(c: Config, s: State, e: Event)
    requires Inv(c, s) && Enabled(c, s, e)
    ensures Inv(c, Apply(c, s, e))
  {
    match e
    case Deliver(i) => assert s.bis == s.bis[..i] + [s.bis[i]] + s.bis[i + 1..];
    case Upload(d) =>
      var t := Apply(c, s, e);
      assert t.stable[|s.stable|] == d;
    case _ =>
  }

  lemma {:induction false} Reachable(c: Config, events: seq<Event>)
    requires Exec(c, events).Some?
    ensures Inv(c, Exec(c, events).value)
  {
    if events != [] {
      Reachable(c, events[..|events| - 1]);
      StepKeepsInv(c, Exec(c, events[..|events| - 1]).value, events[|events| - 1]);
    }
  }

  predicate Quiescent(s: State) {
    s.pending == {} && s.stable == [] && s.bis == []
  }

  /** With durable pins, exactly the blobs the server had from the start stay pinned for good. */
  lemma LeakIsExactlyThePrimed(c: Config, events: seq<Event>)
    requires Exec(c, events).Some? && Quiescent(Exec(c, events).value)
    ensures c.durable ==> Exec(c, events).value.pins == c.primed * c.digests
    ensures Exec(c, events).value.pins <= c.primed * c.digests
  {
    Reachable(c, events);
  }

  // ----- every run with durable pins ends -----

  ghost function Rank(s: State): nat {
    5 * |s.pending| + |s.pending - s.pins| + 2 * |s.stable| + |s.bis|
  }

  lemma RankDecreases(c: Config, s: State, e: Event)
    requires Inv(c, s) && c.durable && Enabled(c, s, e)
    ensures Rank(Apply(c, s, e)) < Rank(s)
  {
    match e
    case Pin(d) => Unpinned(s.pending, s.pins, d);
    case CacheHit(d) => Settled(s.pending, s.pins, d);
    case Upload(d) => Settled(s.pending, s.pins, d);
    case Drain =>
    case Deliver(i) => Elsewhere(s.pending, s.pins, s.bis[i]);
  }

  lemma Unpinned(pending: set<Digest>, pins: set<Digest>, d: Digest)
    requires d in pending && d !in pins
    ensures |pending - (pins + {d})| == |pending - pins| - 1
  {
    assert pending - (pins + {d}) == (pending - pins) - {d};
  }

  lemma Settled(pending: set<Digest>, pins: set<Digest>, d: Digest)
    requires d in pending && d in pins
    ensures |pending - {d}| == |pending| - 1 && |(pending - {d}) - pins| == |pending - pins|
  {
    assert (pending - {d}) - pins == pending - pins;
  }

  lemma Elsewhere(pending: set<Digest>, pins: set<Digest>, d: Digest)
    requires d !in pending
    ensures |pending - (pins - {d})| == |pending - pins|
  {
    assert pending - (pins - {d}) == pending - pins;
  }

  lemma NeverStuck(c: Config, s: State) returns (e: Event)
    requires Inv(c, s) && !Quiescent(s)
    ensures Enabled(c, s, e) && !e.Expire?
  {
    if s.pending != {} {
      var d :| d in s.pending;
      e := if d !in s.pins then Pin(d) else if d in s.server then CacheHit(d) else Upload(d);
    } else if s.stable != [] {
      e := Drain;
    } else {
      e := Deliver(0);
    }
  }

  /** With durable pins every run can be continued until nothing is left to do. */
  lemma {:induction false} Complete(c: Config, events: seq<Event>) returns (all: seq<Event>)
    requires Exec(c, events).Some? && c.durable
    ensures events <= all && Exec(c, all).Some? && Quiescent(Exec(c, all).value)
    decreases Rank(Exec(c, events).value)
  {
    Reachable(c, events);
    if Quiescent(Exec(c, events).value) {
      all := events;
    } else {
      var e := NeverStuck(c, Exec(c, events).value);
      ExecSnoc(c, events, e);
      RankDecreases(c, Exec(c, events).value, e);
      all := Complete(c, events + [e]);
    }
  }

  lemma ExecSnoc(c: Config, events: seq<Event>, e: Event)
    requires Exec(c, events).Some? && Enabled(c, Exec(c, events).value, e)
    ensures Exec(c, events + [e]) == Some(Apply(c, Exec(c, events).value, e))
  {
    assert (events + [e])[..|events|] == events;
  }

  /** With durable pins nothing happens any more after a completed run. */
  lemma {:induction false} QuiescentIsFinal(c: Config, events: seq<Event>, more: seq<Event>)
    requires c.durable && Exec(c, events).Some? && Quiescent(Exec(c, events).value) && Exec(c, events + more).Some?
    ensures more == []
    decreases |more|
  {
    if more != [] {
      var n := |more| - 1;
      assert (events + more)[..|events + more| - 1] == events + more[..n];
      QuiescentIsFinal(c, events, more[..n]);
    }
  }

  /** Some continuation of the run releases the pin of `d`. */
  ghost predicate Releasable(c: Config, events: seq<Event>, d: Digest) {
    exists more :: Exec(c, events + more).Some? && d !in Exec(c, events + more).value.pins
  }

  ghost predicate NeverLeaks(c: Config) {
    forall events, d :: Exec(c, events).Some? && d in Exec(c, events).value.pins ==> Releasable(c, events, d)
  }

  lemma ExpiryReleases(c: Config, events: seq<Event>, d: Digest)
    requires !c.durable && Exec(c, events).Some? && d in Exec(c, events).value.pins
    ensures Releasable(c, events, d)
  {
    ExecSnoc(c, events, Expire(d));
    assert d !in Exec(c, events + [Expire(d)]).value.pins;
  }

  lemma CompletionReleases(c: Config, events: seq<Event>, d: Digest)
    requires c.durable && c.primed * c.digests == {} && Exec(c, events).Some?
    ensures Releasable(c, events, d)
  {
    var all := Complete(c, events);
    LeakIsExactlyThePrimed(c, all);
    assert all == events + all[|events|..];
    assert d !in Exec(c, events + all[|events|..]).value.pins;
  }

  lemma PrimedIsStuck(c: Config, d: Digest)
    requires c.durable && d in c.primed * c.digests
    ensures !NeverLeaks(c)
  {
    var all := Complete(c, []);
    LeakIsExactlyThePrimed(c, all);
    forall more | Exec(c, all + more).Some? ensures d in Exec(c, all + more).value.pins {
      QuiescentIsFinal(c, all, more);
      assert all + more == all;
    }
    assert !Releasable(c, all, d);
  }

  /** Every pin of every run can still be released if and only if pins expire or the server starts
      without any of the blobs. */
  lemma LeakFreeIff(c: Config)
    ensures NeverLeaks(c) <==> !c.durable || c.primed * c.digests == {}
  {
    if !c.durable || c.primed * c.digests == {} {
      forall events, d | Exec(c, events).Some? && d in Exec(c, events).value.pins ensures Releasable(c, events, d) {
        if c.durable { CompletionReleases(c, events, d); } else { ExpiryReleases(c, events, d); }
      }
    } else {
      var d :| d in c.primed * c.digests;
      PrimedIsStuck(c, d);
    }
  }
}

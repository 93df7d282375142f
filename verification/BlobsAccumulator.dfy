/**
The server side of chunked BlobsAvailable notifications, nativelink-service/src/blobs_available_accumulator.rs.

The reference view of a connection is, for each broadcast in flight, the list of chunks accepted so
far. The class keeps what the source keeps: merged lists, an entry count, two words of seen
sequence numbers and one running total, and is proved to behave like the reference.
*/
module BlobsAccumulator {
  import opened Options
  import opened BlobsAvailable
  import opened SeenBits

  const MAX_INFLIGHT_BROADCASTS_PER_CONN := 8
  const MAX_ACCUMULATED_ENTRIES_PER_CONN := 1_000_000
  const MAX_SEQUENCES := 256
  const MAX_ENTRIES_PER_CHUNK := 8192

  datatype MergeOutcome = Accepted(commit: Option<Notification>) | Dropped

  // ----- reference: lists of accepted chunks -----

  type Pending = map<nat, seq<Chunk>>

  function ExtendLists(a: Lists, b: Lists): Lists {
    seq(FIELDS, f requires 0 <= f < FIELDS => a[f] + b[f])
  }

  /** The nine lists of all chunks, merged in order of arrival. */
  function Gather(cs: seq<Chunk>): Lists {
    if cs == [] then NO_ENTRIES
    else ExtendLists(Gather(cs[..|cs| - 1]), cs[|cs| - 1].lists)
  }

  function Entries(cs: seq<Chunk>): nat {
    if cs == [] then 0 else Entries(cs[..|cs| - 1]) + Size(cs[|cs| - 1].lists)
  }

  function Sequences(cs: seq<Chunk>): set<nat> {
    if cs == [] then {} else Sequences(cs[..|cs| - 1]) + {cs[|cs| - 1].sequence}
  }

  /** The scalars, which ride on the chunk with sequence 0. */
  function HeaderOf(cs: seq<Chunk>): Option<Header> {
    if cs == [] then None
    else if cs[|cs| - 1].sequence == 0 then Some(cs[|cs| - 1].header)
    else HeaderOf(cs[..|cs| - 1])
  }

  /** Everything below a sequence number that has arrived has arrived too. */
  ghost predicate NoGaps(cs: seq<Chunk>) {
    forall q, r :: 0 <= q < r && r in Sequences(cs) ==> q in Sequences(cs)
  }

  function Assemble(cs: seq<Chunk>): Notification
    requires cs != []
  {
    var h := HeaderOf(cs);
    Notification(if h.Some? then h.value else DEFAULT_HEADER, cs[0].isFullSnapshot, [], Gather(cs))
  }

  ghost function Total(p: Pending): nat
    decreases |p|
  {
    if p == map[] then 0
    else
      var k :| k in p;
      Entries(p[k]) + Total(p - {k})
  }

  /** Chunk `c` may join the chunks accepted before it for the same broadcast and worker. */
  ghost predicate Fits(prior: seq<Chunk>, c: Chunk) {
    && c.sequence < MAX_SEQUENCES
    && c.sequence !in Sequences(prior)
    && (prior != [] ==> c.storeId == prior[0].storeId && c.isFullSnapshot == prior[0].isFullSnapshot)
  }

  /** The chunks of this broadcast sent by this worker process. */
  function Prior(p: Pending, c: Chunk): seq<Chunk> {
    if c.broadcastId in p && p[c.broadcastId] != [] && p[c.broadcastId][0].token == c.token then p[c.broadcastId] else []
  }

  /** The chunk passes the checks whose failure leaves its broadcast alone. */
  ghost predicate Admissible(p: Pending, c: Chunk) {
    && c.token != 0 && Size(c.lists) <= MAX_ENTRIES_PER_CHUNK
    && (c.broadcastId in p || |p| < MAX_INFLIGHT_BROADCASTS_PER_CONN)
  }

  /** The chunk also passes the checks whose failure forgets its broadcast. */
  ghost predicate Joins(p: Pending, c: Chunk) {
    && Admissible(p, c)
    && Total(p) + Size(c.lists) <= MAX_ACCUMULATED_ENTRIES_PER_CONN
    && Fits(Prior(p, c), c)
  }

  /** One chunk arrives. */
  ghost function Step(p: Pending, c: Chunk): (Pending, MergeOutcome) {
    if !Admissible(p, c) then (p, Dropped)
    else if !Joins(p, c) then (p - {c.broadcastId}, Dropped)
    else StepJoined(p, c, Prior(p, c) + [c])
  }

  /** The chunks `now` of the broadcast have arrived, `c` last. */
  ghost function StepJoined(p: Pending, c: Chunk, now: seq<Chunk>): (Pending, MergeOutcome)
    requires now != []
  {
    if !c.isLast then (p[c.broadcastId := now], Accepted(None))
    else (p - {c.broadcastId}, if NoGaps(now) then Accepted(Some(Assemble(now))) else Dropped)
  }

  // ----- the accumulator as the source keeps it -----

  datatype Partial = Partial(
    token: nat, storeId: string, isFullSnapshot: bool, header: Option<Header>, body: Lists,
    entries: nat, seenLo: nat, seenHi: nat, maxSeen: nat)

  function MaxSequence(cs: seq<Chunk>): nat {
    if cs == [] then 0
    else
      var m, q := MaxSequence(cs[..|cs| - 1]), cs[|cs| - 1].sequence;
      if q > m then q else m
  }

  ghost predicate SameOrigin(a: Partial, cs: seq<Chunk>) {
    forall c :: c in cs ==> c.token == a.token && c.storeId == a.storeId && c.isFullSnapshot == a.isFullSnapshot
  }

  /** `a` is the merged form of the chunks `cs`; `w` is the width of a word. */
  ghost predicate Represents(a: Partial, cs: seq<Chunk>, w: nat) {
    && SameOrigin(a, cs)
    && a.maxSeen < 2 * w
    && a == Partial(a.token, a.storeId, a.isFullSnapshot, HeaderOf(cs), Gather(cs), Entries(cs),
                    Word(Sequences(cs), 0, w), Word(Sequences(cs), w, w), MaxSequence(cs))
  }

  lemma {:induction false} MaxSequenceIsMax(cs: seq<Chunk>)
    ensures forall q :: q in Sequences(cs) ==> q <= MaxSequence(cs)
    ensures cs != [] ==> MaxSequence(cs) in Sequences(cs)
  {
    if cs != [] { MaxSequenceIsMax(cs[..|cs| - 1]); }
  }

  lemma {:induction false} SequenceAt(cs: seq<Chunk>, i: nat)
    requires i < |cs|
    ensures cs[i].sequence in Sequences(cs)
  {
    if i < |cs| - 1 { SequenceAt(cs[..|cs| - 1], i); }
  }

  lemma {:induction false} SequenceFrom(cs: seq<Chunk>, q: nat) returns (i: nat)
    requires q in Sequences(cs)
    ensures i < |cs| && cs[i].sequence == q
  {
    if cs[|cs| - 1].sequence == q {
      i := |cs| - 1;
    } else {
      i := SequenceFrom(cs[..|cs| - 1], q);
    }
  }

  /** Without gaps, chunk 0 has arrived, and with it the scalars. */
  lemma HeaderArrived(cs: seq<Chunk>)
    requires cs != [] && NoGaps(cs)
    ensures 0 in Sequences(cs) && HeaderOf(cs).Some?
  {
    assert cs[|cs| - 1].sequence in Sequences(cs);
    HeaderIffZero(cs);
  }

  lemma {:induction false} HeaderIffZero(cs: seq<Chunk>)
    ensures HeaderOf(cs).Some? <==> 0 in Sequences(cs)
  {
    if cs != [] { HeaderIffZero(cs[..|cs| - 1]); }
  }

  lemma Snoc(cs: seq<Chunk>, c: Chunk)
    ensures Sequences(cs + [c]) == Sequences(cs) + {c.sequence}
    ensures Gather(cs + [c]) == ExtendLists(Gather(cs), c.lists)
    ensures Entries(cs + [c]) == Entries(cs) + Size(c.lists)
    ensures HeaderOf(cs + [c]) == if c.sequence == 0 then Some(c.header) else HeaderOf(cs)
    ensures MaxSequence(cs + [c]) == if c.sequence > MaxSequence(cs) then c.sequence else MaxSequence(cs)
  {
    assert (cs + [c])[..|cs|] == cs;
  }

  function Fresh(c: Chunk): Partial {
    Partial(c.token, c.storeId, c.isFullSnapshot, None, NO_ENTRIES, 0, 0, 0, 0)
  }

  lemma {:induction false} NoBits(base: nat, n: nat)
    ensures Word({}, base, n) == 0
    decreases n
  {
    if n > 0 { NoBits(base + 1, n - 1); }
  }

  lemma WordsTest(seen: set<nat>, w: nat, q: nat)
    requires q < 2 * w
    ensures (if q < w then BitTest(Word(seen, 0, w), q) else BitTest(Word(seen, w, w), q - w)) <==> q in seen
  {
    if q < w { WordTest(seen, 0, w, q); } else { WordTest(seen, w, w, q - w); }
  }

  lemma WordsSet(seen: set<nat>, w: nat, q: nat)
    requires q < 2 * w
    ensures
      var lo, hi := Word(seen, 0, w), Word(seen, w, w);
      && Word(seen + {q}, 0, w) == (if q < w then BitSet(lo, q) else lo)
      && Word(seen + {q}, w, w) == (if q < w then hi else BitSet(hi, q - w))
  {
    if q < w {
      WordSet(seen, 0, w, q);
      WordIgnores(seen, w, w, q);
    } else {
      WordSet(seen, w, w, q - w);
      WordIgnores(seen, 0, w, q);
    }
  }

  lemma FitsIff(a: Partial, cs: seq<Chunk>, c: Chunk)
    requires SameOrigin(a, cs)
    requires cs == [] ==> c.storeId == a.storeId && c.isFullSnapshot == a.isFullSnapshot
    ensures Fits(cs, c) <==>
      && c.storeId == a.storeId && c.isFullSnapshot == a.isFullSnapshot
      && c.sequence < MAX_SEQUENCES && c.sequence !in Sequences(cs)
  {
    if cs != [] { assert cs[0] in cs; }
  }

  lemma MergedRepresents(a: Partial, b: Partial, cs: seq<Chunk>, c: Chunk, w: nat)
    requires Represents(a, cs, w) && c.sequence < 2 * w
    requires c.token == a.token && c.storeId == a.storeId && c.isFullSnapshot == a.isFullSnapshot
    requires b == a.(
      seenLo := if c.sequence < w then BitSet(a.seenLo, c.sequence) else a.seenLo,
      seenHi := if c.sequence < w then a.seenHi else BitSet(a.seenHi, c.sequence - w),
      maxSeen := if c.sequence > a.maxSeen then c.sequence else a.maxSeen,
      header := if c.sequence == 0 then Some(c.header) else a.header,
      entries := a.entries + Size(c.lists),
      body := ExtendLists(a.body, c.lists))
    ensures Represents(b, cs + [c], w)
  {
    WordsSet(Sequences(cs), w, c.sequence);
    Snoc(cs, c);
  }

  /** `BroadcastAccumulator::merge`; None is one of its errors. */
  method Merge(a: Partial, ghost cs: seq<Chunk>, c: Chunk, w: nat) returns (r: Option<Partial>)
    requires w > 0 && Represents(a, cs, w) && 2 * w == MAX_SEQUENCES
    requires c.token == a.token
    requires cs == [] ==> c.storeId == a.storeId && c.isFullSnapshot == a.isFullSnapshot
    ensures r.Some? <==> Fits(cs, c)
    ensures r.Some? ==> Represents(r.value, cs + [c], w) && r.value.token == a.token
  {
    FitsIff(a, cs, c);
    if c.storeId != a.storeId || c.isFullSnapshot != a.isFullSnapshot {
      return None;
    }
    if c.sequence >= MAX_SEQUENCES {
      return None;
    }
    var inLo := c.sequence < w;
    WordsTest(Sequences(cs), w, c.sequence);
    if (inLo && BitTest(a.seenLo, c.sequence)) || (!inLo && BitTest(a.seenHi, c.sequence - w)) {
      return None;
    }
    var b := a.(
      seenLo := if inLo then BitSet(a.seenLo, c.sequence) else a.seenLo,
      seenHi := if inLo then a.seenHi else BitSet(a.seenHi, c.sequence - w),
      maxSeen := if c.sequence > a.maxSeen then c.sequence else a.maxSeen,
      header := if c.sequence == 0 then Some(c.header) else a.header,
      entries := a.entries + Size(c.lists),
      body := ExtendLists(a.body, c.lists));
    MergedRepresents(a, b, cs, c, w);
    return Some(b);
  }

  /** `sequences_contiguous`, on a merged broadcast. */
  method SequencesContiguous(a: Partial, ghost cs: seq<Chunk>, w: nat) returns (b: bool)
    requires w > 0 && Represents(a, cs, w) && cs != []
    ensures b <==> NoGaps(cs)
  {
    var count := a.maxSeen + 1;
    if count <= w {
      b := a.seenLo == Pow2(count) - 1 && a.seenHi == 0;
    } else {
      b := a.seenLo == Pow2(w) - 1 && a.seenHi == Pow2(count - w) - 1;
    }
    WordsAreContiguous(Sequences(cs), w, count);
    MaxSequenceIsMax(cs);
  }

  lemma {:induction false} TotalMinus(p: Pending, k: nat)
    requires k in p
    ensures Total(p) == Entries(p[k]) + Total(p - {k})
    decreases |p|
  {
    var j :| j in p && Total(p) == Entries(p[j]) + Total(p - {j});
    if j != k {
      MinusIsSmaller(p, j);
      MinusIsSmaller(p, k);
      TotalMinus(p - {j}, k);
      TotalMinus(p - {k}, j);
      assert p - {j} - {k} == p - {k} - {j};
    }
  }

  lemma MinusIsSmaller(p: Pending, j: nat)
    requires j in p
    ensures |p - {j}| < |p|
  {
    assert p.Keys == (p - {j}).Keys + {j};
  }

  lemma TotalPut(p: Pending, k: nat, cs: seq<Chunk>)
    ensures Total(p[k := cs]) == Entries(cs) + Total(p - {k})
  {
    TotalMinus(p[k := cs], k);
    assert p[k := cs] - {k} == p - {k};
  }

  lemma TotalWithout(p: Pending, k: nat)
    ensures Total(p - {k}) == Total(p) - if k in p then Entries(p[k]) else 0
  {
    if k in p { TotalMinus(p, k); } else { assert p - {k} == p; }
  }

  /** The broadcasts and the running total are the merged form of `p`. */
  ghost predicate Consistent(bs: map<nat, Partial>, total: nat, p: Pending, w: nat) {
    && bs.Keys == p.Keys
    && total == Total(p)
    && (forall id :: id in bs ==> Represents(bs[id], p[id], w))
  }

  function EntriesAt(bs: map<nat, Partial>, id: nat): nat {
    if id in bs then bs[id].entries else 0
  }

  lemma RemoveKeeps(bs: map<nat, Partial>, total: nat, p: Pending, w: nat, id: nat)
    requires Consistent(bs, total, p, w)
    ensures EntriesAt(bs, id) <= total
    ensures Consistent(bs - {id}, total - EntriesAt(bs, id), p - {id}, w)
  {
    TotalWithout(p, id);
    if id in bs { assert bs[id].entries == Entries(p[id]); }
  }

  lemma PutKeeps(bs: map<nat, Partial>, total: nat, p: Pending, w: nat, id: nat, b: Partial, cs: seq<Chunk>)
    requires Consistent(bs, total, p, w) && Represents(b, cs, w)
    ensures EntriesAt(bs, id) <= total
    ensures Consistent(bs[id := b], total - EntriesAt(bs, id) + b.entries, p[id := cs], w)
  {
    TotalWithout(p, id);
    TotalPut(p, id, cs);
    if id in bs { assert bs[id].entries == Entries(p[id]); }
  }

  lemma PutThenRemove(p: Pending, id: nat, cs: seq<Chunk>)
    ensures p[id := cs] - {id} == p - {id}
  {
  }

  lemma PutTwice(p: Pending, id: nat, cs: seq<Chunk>, ds: seq<Chunk>)
    ensures var q: Pending := p[id := cs]; q[id := ds] == p[id := ds]
  {
  }

  lemma FreshRepresents(c: Chunk, w: nat)
    requires w > 0
    ensures Represents(Fresh(c), [], w)
  {
    NoBits(0, w);
    NoBits(w, w);
  }

  ghost predicate AllStarted(p: Pending) {
    forall id :: id in p ==> p[id] != []
  }

  /** What the joined chunk leaves does not depend on what was held for its broadcast. */
  lemma JoinedAgain(p: Pending, prior: seq<Chunk>, c: Chunk, now: seq<Chunk>)
    requires now != [] && AllStarted(p)
    ensures StepJoined(p[c.broadcastId := prior], c, now) == StepJoined(p, c, now)
    ensures AllStarted(StepJoined(p, c, now).0)
  {
    PutTwice(p, c.broadcastId, prior, now);
    PutThenRemove(p, c.broadcastId, prior);
  }

  class BlobsAvailableAccumulator {
    const wordBits: nat
    var broadcasts: map<nat, Partial>
    var totalAccumulated: nat
    ghost var pending: Pending

    ghost predicate Valid()
      reads this
    {
      && 0 < wordBits && 2 * wordBits == MAX_SEQUENCES
      && Consistent(broadcasts, totalAccumulated, pending, wordBits)
      && AllStarted(pending)
    }

    constructor ()
      ensures Valid() && pending == map[]
    {
      wordBits := 128;
      broadcasts, totalAccumulated, pending := map[], 0, map[];
    }

    /** `merge_chunk_outcome` */
    method MergeChunkOutcome(c: Chunk) returns (outcome: MergeOutcome)
      requires Valid()
      modifies this
      ensures Valid()
      ensures (pending, outcome) == Step(old(pending), c)
    {
      var id := c.broadcastId;
      var inChunk := Size(c.lists);
      if c.token == 0 || inChunk > MAX_ENTRIES_PER_CHUNK {
        return Dropped;
      }
      assert |broadcasts| == |broadcasts.Keys| == |pending.Keys| == |pending|;
      if id !in broadcasts && |broadcasts| >= MAX_INFLIGHT_BROADCASTS_PER_CONN {
        return Dropped;
      }
      if totalAccumulated + inChunk > MAX_ACCUMULATED_ENTRIES_PER_CONN {
        Remove(id);
        return Dropped;
      }
      outcome := MergeAdmitted(c);
    }

    /** `drop_all_inflight`: the worker has disconnected. */
    method DropAllInflight()
      requires Valid()
      modifies this
      ensures Valid() && pending == map[]
    {
      broadcasts, totalAccumulated, pending := map[], 0, map[];
    }

    /** Forgets a broadcast, if it is in flight; the subtraction never saturates. */
    method Remove(id: nat)
      requires Consistent(broadcasts, totalAccumulated, pending, wordBits)
      modifies this
      ensures Consistent(broadcasts, totalAccumulated, pending, wordBits)
      ensures pending == old(pending) - {id}
    {
      RemoveKeeps(broadcasts, totalAccumulated, pending, wordBits, id);
      totalAccumulated := totalAccumulated - EntriesAt(broadcasts, id);
      broadcasts, pending := broadcasts - {id}, pending - {id};
    }

    /** Replaces the accumulator of a broadcast and accounts for the change of its size. */
    method Put(id: nat, b: Partial, ghost cs: seq<Chunk>)
      requires Consistent(broadcasts, totalAccumulated, pending, wordBits) && Represents(b, cs, wordBits)
      modifies this
      ensures Consistent(broadcasts, totalAccumulated, pending, wordBits)
      ensures pending == old(pending)[id := cs] && id in broadcasts && broadcasts[id] == b
    {
      PutKeeps(broadcasts, totalAccumulated, pending, wordBits, id, b, cs);
      totalAccumulated := totalAccumulated - EntriesAt(broadcasts, id) + b.entries;
      broadcasts, pending := broadcasts[id := b], pending[id := cs];
    }

    /** The part of `merge_chunk_outcome` after the caps. No subtraction in it ever saturates. */
    method MergeAdmitted(c: Chunk) returns (outcome: MergeOutcome)
      requires Valid()
      modifies this
      ensures Valid()
      ensures (pending, outcome) ==
        if Fits(Prior(old(pending), c), c) then StepJoined(old(pending), c, Prior(old(pending), c) + [c])
        else (old(pending) - {c.broadcastId}, Dropped)
    {
      var id := c.broadcastId;
      ghost var p := pending;
      ghost var prior := Prior(p, c);
      Prepare(c);
      var merged := Merge(broadcasts[id], prior, c, wordBits);
      if merged.None? {
        Remove(id);
        PutThenRemove(p, id, prior);
        return Dropped;
      }
      JoinedAgain(p, prior, c, prior + [c]);
      outcome := Join(c, merged.value, prior + [c]);
    }

    /** The chunk has been merged: store the result, and finish the broadcast if this was its last chunk. */
    method Join(c: Chunk, b: Partial, ghost now: seq<Chunk>) returns (outcome: MergeOutcome)
      requires 0 < wordBits && Consistent(broadcasts, totalAccumulated, pending, wordBits)
      requires now != [] && Represents(b, now, wordBits)
      modifies this
      ensures Consistent(broadcasts, totalAccumulated, pending, wordBits)
      ensures (pending, outcome) == StepJoined(old(pending), c, now)
    {
      var id := c.broadcastId;
      Put(id, b, now);
      if !c.isLast {
        return Accepted(None);
      }
      Remove(id);
      PutThenRemove(old(pending), id, now);
      outcome := Finish(b, now);
    }

    /** Makes sure the broadcast of `c` has an accumulator of the same worker process. */
    method Prepare(c: Chunk)
      requires Valid()
      modifies this
      ensures 0 < wordBits && 2 * wordBits == MAX_SEQUENCES
      ensures pending == old(pending)[c.broadcastId := Prior(old(pending), c)]
      ensures Consistent(broadcasts, totalAccumulated, pending, wordBits)
      ensures broadcasts[c.broadcastId].token == c.token
      ensures Prior(old(pending), c) == [] ==>
        broadcasts[c.broadcastId].storeId == c.storeId && broadcasts[c.broadcastId].isFullSnapshot == c.isFullSnapshot
    {
      var id := c.broadcastId;
      if id in broadcasts {
        assert pending[id][0] in pending[id];
      }
      if id !in broadcasts || broadcasts[id].token != c.token {
        FreshRepresents(c, wordBits);
        Put(id, Fresh(c), []);
      } else {
        assert pending == pending[id := pending[id]];
      }
    }

    /** The terminal chunk has arrived: commit, unless a sequence number is missing. */
    method Finish(b: Partial, ghost now: seq<Chunk>) returns (outcome: MergeOutcome)
      requires 0 < wordBits && Represents(b, now, wordBits) && now != []
      ensures outcome == if NoGaps(now) then Accepted(Some(Assemble(now))) else Dropped
    {
      var contiguous := SequencesContiguous(b, now, wordBits);
      if contiguous { HeaderArrived(now); }
      assert now[0] in now;
      if b.header.None? || !contiguous {
        return Dropped;
      }
      return Accepted(Some(Notification(b.header.value, b.isFullSnapshot, [], b.body)));
    }
  }
}

/**
The BlobsAvailable protocol end to end: what the chunker of the worker sends, arriving at the
accumulator of the server in any order, with losses, repetitions, interleavings and disconnects.
*/
module BlobsDelivery {
  import opened Options
  import opened SeqLemmas
  import opened BlobsAvailable
  import opened BlobsAccumulator

  datatype Arrival = Arrive(chunk: Chunk) | Disconnect

  /** The broadcasts in flight after a history of arrivals on one connection. */
  ghost function Run(history: seq<Arrival>): Pending {
    if history == [] then map[]
    else
      var n := |history| - 1;
      match history[n]
      case Arrive(c) => Step(Run(history[..n]), c).0
      case Disconnect => map[]
  }

  // ----- whatever arrives, the caps hold -----

  ghost predicate SameBroadcast(id: nat, first: Chunk, c: Chunk) {
    && c.broadcastId == id && c.token == first.token != 0
    && c.isFullSnapshot == first.isFullSnapshot && c.storeId == first.storeId
  }

  ghost predicate GoodList(id: nat, cs: seq<Chunk>) {
    && cs != []
    && (forall i :: 0 <= i < |cs| ==> SameBroadcast(id, cs[0], cs[i]))
    && (forall i, j :: 0 <= i < j < |cs| ==> cs[i].sequence != cs[j].sequence)
  }

  ghost predicate Good(p: Pending) {
    && |p| <= MAX_INFLIGHT_BROADCASTS_PER_CONN
    && Total(p) <= MAX_ACCUMULATED_ENTRIES_PER_CONN
    && (forall id :: id in p ==> GoodList(id, p[id]))
  }

  lemma FitExtends(prior: seq<Chunk>, c: Chunk)
    requires prior != [] ==> GoodList(c.broadcastId, prior) && prior[0].token == c.token
    requires c.token != 0 && Fits(prior, c)
    ensures GoodList(c.broadcastId, prior + [c])
  {
    forall i | 0 <= i < |prior| ensures prior[i].sequence != c.sequence {
      SequenceAt(prior, i);
    }
  }

  lemma PutCard(p: Pending, id: nat, cs: seq<Chunk>)
    ensures |p[id := cs]| == |p| + if id in p then 0 else 1
  {
    var q := p[id := cs];
    assert q.Keys == p.Keys + {id};
    assert |p| == |p.Keys| && |q| == |q.Keys|;
    if id in p { assert q.Keys == p.Keys; }
  }

  lemma RemoveCard(p: Pending, id: nat)
    ensures |p - {id}| <= |p|
  {
    assert |p| == |p.Keys|;
    var q := p - {id};
    assert q.Keys == p.Keys - {id};
    assert |q| == |q.Keys|;
  }

  lemma GoodRemove(p: Pending, id: nat)
    requires Good(p)
    ensures Good(p - {id})
  {
    TotalWithout(p, id);
    RemoveCard(p, id);
  }

  lemma GoodPut(p: Pending, c: Chunk)
    requires Good(p) && Joins(p, c)
    ensures Good(p[c.broadcastId := Prior(p, c) + [c]])
  {
    var id, now := c.broadcastId, Prior(p, c) + [c];
    FitExtends(Prior(p, c), c);
    TotalWithout(p, id);
    TotalPut(p, id, now);
    Snoc(Prior(p, c), c);
    PutCard(p, id, now);
  }

  lemma StepKeepsGood(p: Pending, c: Chunk)
    requires Good(p)
    ensures Good(Step(p, c).0)
  {
    GoodRemove(p, c.broadcastId);
    if Joins(p, c) { GoodPut(p, c); }
  }

  /** The chunk is refused for what it is alone, or because all slots are taken. */
  ghost predicate RefusedOutright(p: Pending, c: Chunk) {
    c.token == 0 || Size(c.lists) > 8192 || (c.broadcastId !in p && |p| >= 8)
  }

  /** The chunks held of the broadcast and process of `c`; those of another process do not count. */
  ghost function Held(p: Pending, c: Chunk): seq<Chunk> {
    if c.broadcastId in p && forall d :: d in p[c.broadcastId] ==> d.token == c.token then p[c.broadcastId] else []
  }

  /** The chunk does not go with those held: too many entries in all, a sequence number out of range or
      seen before, or another store or kind of snapshot. */
  ghost predicate DoesNotJoin(p: Pending, c: Chunk) {
    || Total(p) + Size(c.lists) > 1_000_000 || c.sequence >= 256
    || exists d :: d in Held(p, c) &&
         (d.sequence == c.sequence || d.storeId != c.storeId || d.isFullSnapshot != c.isFullSnapshot)
  }

  /** Everything one chunk does: which chunks are refused, which of those cost their broadcast, what is
      held of an accepted one, when it commits, and that no other broadcast is touched. */
  lemma WhatOneChunkDoes(p: Pending, c: Chunk)
    requires Good(p)
    ensures
      var id, now := c.broadcastId, Held(p, c) + [c];
      && (RefusedOutright(p, c) ==> Step(p, c) == (p, Dropped))
      && (!RefusedOutright(p, c) && DoesNotJoin(p, c) ==> Step(p, c) == (p - {id}, Dropped))
      && (!RefusedOutright(p, c) && !DoesNotJoin(p, c) && !c.isLast ==> Step(p, c) == (p[id := now], Accepted(None)))
      && (!RefusedOutright(p, c) && !DoesNotJoin(p, c) && c.isLast ==>
            Step(p, c) == (p - {id}, if NoGaps(now) then Accepted(Some(Assemble(now))) else Dropped))
  {
    HeldIsPrior(p, c);
    var prior := Held(p, c);
    forall d | d in prior ensures d.sequence in Sequences(prior) {
      var i :| 0 <= i < |prior| && prior[i] == d;
      SequenceAt(prior, i);
    }
    if c.sequence in Sequences(prior) {
      var i := SequenceFrom(prior, c.sequence);
      assert prior[i] in prior;
    }
    if prior != [] { assert prior[0] in prior; }
    SameAsFirst(p, c);
  }

  lemma HeldIsPrior(p: Pending, c: Chunk)
    requires Good(p)
    ensures Held(p, c) == Prior(p, c)
  {
    if c.broadcastId in p {
      var cs := p[c.broadcastId];
      assert cs[0] in cs;
      forall d | d in cs ensures d.token == cs[0].token {
        var i :| 0 <= i < |cs| && cs[i] == d;
        assert SameBroadcast(c.broadcastId, cs[0], cs[i]);
      }
    }
  }

  lemma SameAsFirst(p: Pending, c: Chunk)
    requires Good(p)
    ensures forall d :: d in Held(p, c) ==> d.storeId == Held(p, c)[0].storeId && d.isFullSnapshot == Held(p, c)[0].isFullSnapshot
  {
    forall d | d in Held(p, c)
      ensures d.storeId == Held(p, c)[0].storeId && d.isFullSnapshot == Held(p, c)[0].isFullSnapshot
    {
      var cs := p[c.broadcastId];
      var i :| 0 <= i < |cs| && cs[i] == d;
      assert SameBroadcast(c.broadcastId, cs[0], cs[i]);
    }
  }

  /** At most 8 broadcasts and 1,000,000 entries are ever held for a connection, whatever the
      chunks say. */
  lemma {:induction false} CapsAlwaysHold(history: seq<Arrival>)
    ensures Good(Run(history)) && |Run(history)| <= 8 && Total(Run(history)) <= 1_000_000
  {
    if history != [] {
      var n := |history| - 1;
      CapsAlwaysHold(history[..n]);
      match history[n]
      case Arrive(c) => StepKeepsGood(Run(history[..n]), c);
      case Disconnect =>
    }
  }

  // ----- the chunks of one broadcast carry exactly its notification -----

  /** The entries of field `f`. */
  function Project(ts: seq<(nat, Entry)>, f: nat): seq<Entry> {
    if ts == [] then []
    else if ts[0].0 == f then [ts[0].1] + Project(ts[1..], f)
    else Project(ts[1..], f)
  }

  lemma {:induction false} ProjectConcat(a: seq<(nat, Entry)>, b: seq<(nat, Entry)>, f: nat)
    ensures Project(a + b, f) == Project(a, f) + Project(b, f)
  {
    if a == [] {
      assert a + b == b;
    } else {
      assert (a + b)[0] == a[0] && (a + b)[1..] == a[1..] + b;
      ProjectConcat(a[1..], b, f);
    }
  }

  lemma {:induction false} ProjectTagList(es: seq<Entry>, g: nat, f: nat)
    ensures Project(TagList(es, g), f) == if g == f then es else []
  {
    if es != [] {
      assert TagList(es, g)[1..] == TagList(es[1..], g);
      ProjectTagList(es[1..], g, f);
    }
  }

  lemma {:induction false} ProjectTagged(ls: seq<seq<Entry>>, base: nat, f: nat)
    requires base <= f < base + |ls|
    ensures Project(Tagged(ls, base), f) == ls[f - base]
    decreases |ls|
  {
    if f == base {
      ProjectFirst(ls[0], ls[1..], base);
    } else {
      ProjectLater(ls[0], ls[1..], base, f);
      ProjectTagged(ls[1..], base + 1, f);
    }
  }

  lemma {:induction false} ProjectNone(ls: seq<seq<Entry>>, base: nat, f: nat)
    requires f < base
    ensures Project(Tagged(ls, base), f) == []
    decreases |ls|
  {
    if ls != [] {
      ProjectLater(ls[0], ls[1..], base, f);
      ProjectNone(ls[1..], base + 1, f);
    }
  }

  lemma ProjectFirst(head: seq<Entry>, rest: seq<seq<Entry>>, base: nat)
    ensures Project(TagList(head, base) + Tagged(rest, base + 1), base) == head
  {
    ProjectTagList(head, base, base);
    ProjectNone(rest, base + 1, base);
    ProjectParts(TagList(head, base), Tagged(rest, base + 1), base, head, []);
  }

  lemma ProjectLater(head: seq<Entry>, rest: seq<seq<Entry>>, base: nat, f: nat)
    requires base != f
    ensures Project(TagList(head, base) + Tagged(rest, base + 1), f) == Project(Tagged(rest, base + 1), f)
  {
    ProjectTagList(head, base, f);
    ProjectParts(TagList(head, base), Tagged(rest, base + 1), f, [], Project(Tagged(rest, base + 1), f));
  }

  lemma ProjectParts(a: seq<(nat, Entry)>, b: seq<(nat, Entry)>, f: nat, x: seq<Entry>, y: seq<Entry>)
    requires Project(a, f) == x && Project(b, f) == y
    ensures Project(a + b, f) == x + y
    ensures x + [] == x && [] + y == y
  {
    ProjectConcat(a, b, f);
  }

  /** The entries of field `f` of all chunks, in order of arrival. */
  function Field(cs: seq<Chunk>, f: nat): seq<Entry>
    requires f < FIELDS
  {
    if cs == [] then [] else Field(cs[..|cs| - 1], f) + cs[|cs| - 1].lists[f]
  }

  lemma {:induction false} GatherField(cs: seq<Chunk>, f: nat)
    requires f < FIELDS
    ensures Gather(cs)[f] == Field(cs, f)
  {
    if cs != [] { GatherField(cs[..|cs| - 1], f); }
  }

  lemma FieldSnoc(cs: seq<Chunk>, k: nat, f: nat)
    requires k < |cs| && f < FIELDS
    ensures Field(cs[..k + 1], f) == Field(cs[..k], f) + cs[k].lists[f]
  {
    assert cs[..k + 1][..k] == cs[..k];
  }

  /** Field `f` of each of the first `k` chunks is what its window of `all` holds of field `f`. */
  ghost predicate Windows(cs: seq<Chunk>, all: seq<(nat, Entry)>, m: nat, f: nat, k: nat)
    requires f < FIELDS && k <= |cs|
  {
    k > 0 ==> Windows(cs, all, m, f, k - 1) && HasWindow(cs[k - 1].lists[f], all, Offset(k - 1, m), m, f)
  }

  ghost predicate HasWindow(es: seq<Entry>, all: seq<(nat, Entry)>, from: nat, m: nat, f: nat) {
    from <= |all| && es == Project(all[from..Min(from + m, |all|)], f)
  }

  lemma {:induction false} ChunkWindows(cs: seq<Chunk>, n: Notification, id: nat, token: nat, store: string, m: nat, f: nat, k: nat)
    requires IsChunking(cs, n, id, token, store, m) && f < FIELDS && k <= |cs|
    ensures Windows(cs, Tagged(n.lists, 0), m, f, k)
  {
    if k > 0 {
      var i := k - 1;
      ChunkWindows(cs, n, id, token, store, m, f, i);
      assert IsChunk(cs[i], i, i == |cs| - 1, n, id, token, store, m);
      WindowOfField(cs[i].lists, Tagged(n.lists, 0), Offset(i, m), m, f);
    }
  }

  lemma WindowOfField(lists: Lists, all: seq<(nat, Entry)>, from: nat, m: nat, f: nat)
    requires f < FIELDS && IsWindow(Tagged(lists, 0), all, from, m)
    ensures HasWindow(lists[f], all, from, m, f)
  {
    ProjectTagged(lists, 0, f);
  }

  lemma {:induction false} FieldPrefix(cs: seq<Chunk>, all: seq<(nat, Entry)>, m: nat, k: nat, f: nat)
    requires f < FIELDS && k <= |cs| && Windows(cs, all, m, f, k)
    ensures Field(cs[..k], f) == Project(all[..Min(Offset(k, m), |all|)], f)
  {
    if k == 0 {
      assert cs[..0] == [] && all[..0] == [];
    } else {
      FieldPrefix(cs, all, m, k - 1, f);
      var from := Offset(k - 1, m);
      assert Min(from, |all|) == from && Offset(k, m) == from + m;
      NextWindow(cs, all, from, m, k - 1, f);
    }
  }

  lemma NextWindow(cs: seq<Chunk>, all: seq<(nat, Entry)>, from: nat, m: nat, k: nat, f: nat)
    requires f < FIELDS && k < |cs| && HasWindow(cs[k].lists[f], all, from, m, f)
    requires Field(cs[..k], f) == Project(all[..from], f)
    ensures Field(cs[..k + 1], f) == Project(all[..Min(from + m, |all|)], f)
  {
    FieldSnoc(cs, k, f);
    JoinWindows(all, from, from + m, f);
  }

  lemma JoinWindows(all: seq<(nat, Entry)>, i: nat, j: nat, f: nat)
    requires i <= j && i <= |all|
    ensures Project(all[..i], f) + Project(all[i..Min(j, |all|)], f) == Project(all[..Min(j, |all|)], f)
  {
    ProjectConcat(all[..i], all[i..Min(j, |all|)], f);
    assert all[..i] + all[i..Min(j, |all|)] == all[..Min(j, |all|)];
  }

  /** Merging the chunks of a broadcast in order gives back its nine lists. */
  lemma ChunksCarryTheLists(cs: seq<Chunk>, n: Notification, id: nat, token: nat, store: string, m: nat)
    requires IsChunking(cs, n, id, token, store, m)
    ensures Gather(cs) == n.lists
  {
    forall f | 0 <= f < FIELDS ensures Gather(cs)[f] == n.lists[f] { ChunksCarryField(cs, n, id, token, store, m, f); }
    SameLists(Gather(cs), n.lists);
  }

  lemma SameLists(a: Lists, b: Lists)
    requires forall f :: 0 <= f < FIELDS ==> a[f] == b[f]
    ensures a == b
  {
  }

  lemma ChunksCarryField(cs: seq<Chunk>, n: Notification, id: nat, token: nat, store: string, m: nat, f: nat)
    requires IsChunking(cs, n, id, token, store, m) && f < FIELDS
    ensures Gather(cs)[f] == n.lists[f]
  {
    var all := Tagged(n.lists, 0);
    ChunkWindows(cs, n, id, token, store, m, f, |cs|);
    TaggedSize(n.lists, 0);
    WholeField(cs, all, m, f);
    ProjectTagged(n.lists, 0, f);
  }

  lemma WholeField(cs: seq<Chunk>, all: seq<(nat, Entry)>, m: nat, f: nat)
    requires f < FIELDS && Windows(cs, all, m, f, |cs|) && |all| <= Offset(|cs|, m)
    ensures Gather(cs)[f] == Project(all, f)
  {
    GatherField(cs, f);
    FieldPrefix(cs, all, m, |cs|, f);
    assert cs[..|cs|] == cs && all[..|all|] == all;
  }

  lemma ChunkSize(cs: seq<Chunk>, n: Notification, id: nat, token: nat, store: string, m: nat, k: nat)
    requires IsChunking(cs, n, id, token, store, m) && k < |cs|
    ensures Size(cs[k].lists) <= m
  {
    assert IsChunk(cs[k], k, k == |cs| - 1, n, id, token, store, m);
    TaggedSize(cs[k].lists, 0);
  }

  lemma {:induction false} SizeOfSum(a: seq<seq<Entry>>, b: seq<seq<Entry>>, sum: seq<seq<Entry>>)
    requires |a| == |b| == |sum| && forall f :: 0 <= f < |a| ==> sum[f] == a[f] + b[f]
    ensures Size(sum) == Size(a) + Size(b)
  {
    if a != [] { SizeOfSum(a[1..], b[1..], sum[1..]); }
  }

  lemma {:induction false} NoEntries(ls: seq<seq<Entry>>)
    requires forall f :: 0 <= f < |ls| ==> ls[f] == []
    ensures Size(ls) == 0
  {
    if ls != [] { NoEntries(ls[1..]); }
  }

  /** No entry is lost or repeated by merging. */
  lemma {:induction false} GatherSize(cs: seq<Chunk>)
    ensures Size(Gather(cs)) == Entries(cs)
  {
    if cs == [] {
      NoEntries(Gather(cs));
    } else {
      var n := |cs| - 1;
      GatherSize(cs[..n]);
      SizeOfSum(Gather(cs[..n]), cs[n].lists, Gather(cs));
    }
  }

  /** The chunks of one broadcast in order, as far as their labels go. */
  ghost predicate Line(cs: seq<Chunk>, id: nat) {
    cs != [] && forall i :: 0 <= i < |cs| ==> InLine(cs[0], |cs|, id, i, cs[i])
  }

  ghost predicate InLine(first: Chunk, count: nat, id: nat, i: nat, c: Chunk) {
    && c.sequence == i && (c.isLast <==> i == count - 1)
    && c.broadcastId == id && c.token == first.token
    && c.storeId == first.storeId && c.isFullSnapshot == first.isFullSnapshot
  }

  lemma ChunkingIsLine(cs: seq<Chunk>, n: Notification, id: nat, token: nat, store: string, m: nat)
    requires IsChunking(cs, n, id, token, store, m)
    ensures Line(cs, id) && cs[0].header == n.header && cs[0].isFullSnapshot == n.isFullSnapshot && cs[0].token == token
  {
    assert IsChunk(cs[0], 0, 0 == |cs| - 1, n, id, token, store, m);
    forall i | 0 <= i < |cs| ensures InLine(cs[0], |cs|, id, i, cs[i]) {
      assert IsChunk(cs[i], i, i == |cs| - 1, n, id, token, store, m);
    }
  }

  // ----- all or nothing -----

  lemma {:induction false} FieldConcat(a: seq<Chunk>, b: seq<Chunk>, f: nat)
    requires f < FIELDS
    ensures Field(a + b, f) == Field(a, f) + Field(b, f)
  {
    if b == [] {
      assert a + b == a;
    } else {
      var n := |b| - 1;
      assert (a + b)[..|a + b| - 1] == a + b[..n];
      FieldConcat(a, b[..n], f);
    }
  }

  /** `now` holds the first `k` chunks of `cs`, each once, in some order. */
  ghost predicate Covers(now: seq<Chunk>, cs: seq<Chunk>, k: nat) {
    && k <= |cs|
    && (forall i :: 0 <= i < |now| ==> now[i].sequence < k && now[i] == cs[now[i].sequence])
    && (forall i, j :: 0 <= i < j < |now| ==> now[i].sequence != now[j].sequence)
    && (forall q :: 0 <= q < k ==> q in Sequences(now))
  }

  lemma RemoveKeepsOthers(now: seq<Chunk>, j: nat, q: nat)
    requires j < |now| && q in Sequences(now) && now[j].sequence != q
    ensures q in Sequences(now[..j] + now[j + 1..])
  {
    var i := SequenceFrom(now, q);
    SequenceAt(now[..j] + now[j + 1..], if i < j then i else i - 1);
  }

  lemma RemoveCovers(now: seq<Chunk>, cs: seq<Chunk>, k: nat, j: nat)
    requires Covers(now, cs, k) && 0 < k && j < |now| && now[j].sequence == k - 1
    ensures Covers(now[..j] + now[j + 1..], cs, k - 1)
  {
    var rest := now[..j] + now[j + 1..];
    assert forall i :: 0 <= i < |rest| ==> rest[i] == now[if i < j then i else i + 1];
    forall q | 0 <= q < k - 1 ensures q in Sequences(rest) {
      RemoveKeepsOthers(now, j, q);
    }
  }

  lemma CoversNone(now: seq<Chunk>, cs: seq<Chunk>)
    requires Covers(now, cs, 0)
    ensures now == []
  {
    assert now != [] ==> now[0].sequence < 0;
  }

  lemma {:induction false} CoversField(now: seq<Chunk>, cs: seq<Chunk>, k: nat, f: nat)
    requires Covers(now, cs, k) && f < FIELDS
    ensures multiset(Field(now, f)) == multiset(Field(cs[..k], f))
    decreases k
  {
    if k == 0 {
      CoversNone(now, cs);
    } else {
      var j, rest := FindLast(now, cs, k);
      CoversField(rest, cs, k - 1, f);
      TakeOutAt(now, j, rest, f);
      LastIn(cs, k - 1, f);
    }
  }

  /** Chunk `k - 1`, and the other chunks. */
  lemma FindLast(now: seq<Chunk>, cs: seq<Chunk>, k: nat) returns (j: nat, rest: seq<Chunk>)
    requires Covers(now, cs, k) && 0 < k
    ensures j < |now| && now[j] == cs[k - 1] && rest == now[..j] + now[j + 1..] && Covers(rest, cs, k - 1)
  {
    j := SequenceFrom(now, k - 1);
    rest := now[..j] + now[j + 1..];
    RemoveCovers(now, cs, k, j);
  }

  lemma TakeOutAt(now: seq<Chunk>, j: nat, rest: seq<Chunk>, f: nat)
    requires j < |now| && f < FIELDS && rest == now[..j] + now[j + 1..]
    ensures multiset(Field(now, f)) == multiset(Field(rest, f)) + multiset(now[j].lists[f])
  {
    SplitAround(now, j);
    TakeOut(now[..j], now[j], now[j + 1..], f);
  }

  lemma LastIn(cs: seq<Chunk>, k: nat, f: nat)
    requires k < |cs| && f < FIELDS
    ensures multiset(Field(cs[..k + 1], f)) == multiset(Field(cs[..k], f)) + multiset(cs[k].lists[f])
  {
    FieldSnoc(cs, k, f);
  }

  lemma TakeOut(a: seq<Chunk>, c: Chunk, b: seq<Chunk>, f: nat)
    requires f < FIELDS
    ensures multiset(Field(a + ([c] + b), f)) == multiset(Field(a + b, f)) + multiset(c.lists[f])
  {
    FieldConcat(a, [c] + b, f);
    FieldConcat([c], b, f);
    FieldConcat(a, b, f);
    assert [c][..0] == [];
    MultisetMiddle(Field(a, f), c.lists[f], Field(b, f));
  }

  lemma {:induction false} HeaderFrom(now: seq<Chunk>, h: Header)
    requires forall i :: 0 <= i < |now| && now[i].sequence == 0 ==> now[i].header == h
    requires 0 in Sequences(now)
    ensures HeaderOf(now) == Some(h)
  {
    if now[|now| - 1].sequence != 0 {
      HeaderFrom(now[..|now| - 1], h);
    }
  }

  /** One broadcast of a worker process: a notification and its chunks. */
  datatype Broadcast = Broadcast(n: Notification, token: nat, store: string, m: nat, chunks: seq<Chunk>)

  /** What the worker sends over time. A process that has restarted has a new token and may use the
      broadcast ids of its predecessor again. */
  type Plan = map<(nat, nat), Broadcast>

  function Origin(c: Chunk): (nat, nat) {
    (c.broadcastId, c.token)
  }

  /** Each pair of id and token stands for the chunks of one notification. */
  ghost predicate Honest(plan: Plan) {
    forall k :: k in plan ==>
      IsChunking(plan[k].chunks, plan[k].n, k.0, k.1, plan[k].store, plan[k].m) && plan[k].token == k.1
  }

  ghost predicate FromPlan(plan: Plan, c: Chunk) {
    Origin(c) in plan && c in plan[Origin(c)].chunks
  }

  ghost predicate AllFromPlan(plan: Plan, p: Pending) {
    forall id, i :: id in p && 0 <= i < |p[id]| ==> FromPlan(plan, p[id][i])
  }

  lemma StepFromPlan(plan: Plan, p: Pending, c: Chunk)
    requires AllFromPlan(plan, p) && FromPlan(plan, c)
    ensures AllFromPlan(plan, Step(p, c).0)
  {
    var q := Step(p, c).0;
    forall id, i | id in q && 0 <= i < |q[id]| ensures FromPlan(plan, q[id][i]) {
      if id != c.broadcastId {
        assert q[id] == p[id];
      }
    }
  }

  lemma {:induction false} PendingFromPlan(plan: Plan, history: seq<Arrival>)
    requires forall a :: a in history && a.Arrive? ==> FromPlan(plan, a.chunk)
    ensures AllFromPlan(plan, Run(history))
  {
    if history != [] {
      var n := |history| - 1;
      PendingFromPlan(plan, history[..n]);
      assert history[n] in history;
      if history[n].Arrive? {
        StepFromPlan(plan, Run(history[..n]), history[n].chunk);
      }
    }
  }

  /** The chunks of a committed broadcast are all of its chunks. */
  lemma CommitCovers(cs: seq<Chunk>, id: nat, now: seq<Chunk>)
    requires Line(cs, id) && GoodList(id, now) && NoGaps(now)
    requires forall i :: 0 <= i < |now| ==> now[i] in cs
    requires now[|now| - 1].isLast
    ensures Covers(now, cs, |cs|)
  {
    forall i | 0 <= i < |now| ensures now[i].sequence < |cs| && now[i] == cs[now[i].sequence] {
      var j :| 0 <= j < |cs| && cs[j] == now[i];
      assert InLine(cs[0], |cs|, id, j, cs[j]);
    }
    var last := now[|now| - 1];
    assert InLine(cs[0], |cs|, id, last.sequence, cs[last.sequence]);
    assert |cs| - 1 in Sequences(now);
  }

  /** The same scalars and, in each of the nine lists, the same entries. */
  ghost predicate SameContents(got: Notification, was: Notification) {
    && got.header == was.header && got.isFullSnapshot == was.isFullSnapshot && got.legacyDigests == []
    && (forall f :: 0 <= f < FIELDS ==> multiset(got.lists[f]) == multiset(was.lists[f]))
  }

  ghost predicate Commits(p: Pending, c: Chunk) {
    Step(p, c).1.Accepted? && Step(p, c).1.commit.Some?
  }

  lemma CommitShape(p: Pending, c: Chunk)
    requires Commits(p, c)
    ensures
      var now := Prior(p, c) + [c];
      Joins(p, c) && c.isLast && NoGaps(now) && Step(p, c).1.commit.value == Assemble(now)
  {
  }

  lemma PriorFromPlan(plan: Plan, p: Pending, c: Chunk, i: nat)
    requires AllFromPlan(plan, p) && Good(p) && FromPlan(plan, c) && i <= |Prior(p, c)|
    ensures (Prior(p, c) + [c])[i] in plan[Origin(c)].chunks
  {
    if i < |Prior(p, c)| {
      assert SameBroadcast(c.broadcastId, p[c.broadcastId][0], p[c.broadcastId][i]);
    }
  }

  lemma CommitIsWhole(plan: Plan, p: Pending, c: Chunk)
    requires Honest(plan) && FromPlan(plan, c) && Good(p) && AllFromPlan(plan, p) && Commits(p, c)
    ensures SameContents(Step(p, c).1.commit.value, plan[Origin(c)].n)
  {
    var b, id := plan[Origin(c)], c.broadcastId;
    var now := Prior(p, c) + [c];
    CommitShape(p, c);
    FitExtends(Prior(p, c), c);
    forall i | 0 <= i < |now| ensures now[i] in b.chunks { PriorFromPlan(plan, p, c, i); }
    WholeIsWhole(b, id, now);
  }

  /** All or nothing: whatever the order, the losses, the repetitions, the interleaving, the
      disconnects and the restarts of the worker, a notification that the server commits is the whole
      notification that the process with the committing chunk's token sent under its id. */
  lemma CommitsAreWhole(plan: Plan, history: seq<Arrival>, c: Chunk)
    requires Honest(plan) && FromPlan(plan, c)
    requires forall a :: a in history && a.Arrive? ==> FromPlan(plan, a.chunk)
    requires Commits(Run(history), c)
    ensures SameContents(Step(Run(history), c).1.commit.value, plan[Origin(c)].n)
  {
    CapsAlwaysHold(history);
    PendingFromPlan(plan, history);
    CommitIsWhole(plan, Run(history), c);
  }

  lemma WholeIsWhole(b: Broadcast, id: nat, now: seq<Chunk>)
    requires IsChunking(b.chunks, b.n, id, b.token, b.store, b.m)
    requires GoodList(id, now) && NoGaps(now)
    requires forall i :: 0 <= i < |now| ==> now[i] in b.chunks
    requires now[|now| - 1].isLast
    ensures SameContents(Assemble(now), b.n)
  {
    ChunkingIsLine(b.chunks, b.n, id, b.token, b.store, b.m);
    ChunksCarryTheLists(b.chunks, b.n, id, b.token, b.store, b.m);
    CommitCovers(b.chunks, id, now);
    CoverHeader(now, b.chunks, id);
    CoverLists(now, b.chunks);
  }

  lemma CoverLists(now: seq<Chunk>, cs: seq<Chunk>)
    requires Covers(now, cs, |cs|)
    ensures forall f :: 0 <= f < FIELDS ==> multiset(Gather(now)[f]) == multiset(Gather(cs)[f])
  {
    forall f | 0 <= f < FIELDS ensures multiset(Gather(now)[f]) == multiset(Gather(cs)[f]) {
      CoversField(now, cs, |cs|, f);
      GatherField(now, f);
      GatherField(cs, f);
      assert cs[..|cs|] == cs;
    }
  }

  lemma CoverHeader(now: seq<Chunk>, cs: seq<Chunk>, id: nat)
    requires Line(cs, id) && now != [] && Covers(now, cs, |cs|)
    ensures Assemble(now).header == cs[0].header && Assemble(now).isFullSnapshot == cs[0].isFullSnapshot
  {
    HeaderFrom(now, cs[0].header);
    assert InLine(cs[0], |cs|, id, now[0].sequence, cs[now[0].sequence]);
  }

  // ----- all chunks of a broadcast delivered once each, in any order -----

  /** The broadcasts in flight after the chunks `cs` have arrived one after the other. */
  ghost function Feed(p: Pending, cs: seq<Chunk>): Pending {
    if cs == [] then p else Step(Feed(p, cs[..|cs| - 1]), cs[|cs| - 1]).0
  }

  /** What the server answers to the last of the chunks `cs`. */
  ghost function LastOutcome(p: Pending, cs: seq<Chunk>): MergeOutcome
    requires cs != []
  {
    Step(Feed(p, cs[..|cs| - 1]), cs[|cs| - 1]).1
  }

  /** A chunk of the broadcast `id` of `n` chunks, labelled like `first`. */
  ghost predicate Labelled(first: Chunk, n: nat, id: nat, c: Chunk) {
    && c.sequence < n <= MAX_SEQUENCES && (c.isLast <==> c.sequence == n - 1)
    && SameBroadcast(id, first, c) && Size(c.lists) <= MAX_ENTRIES_PER_CHUNK
  }

  /** The `n` chunks of a broadcast, each once, in some order. */
  ghost predicate Delivery(ds: seq<Chunk>, id: nat, n: nat) {
    && ds != [] && (forall i :: 0 <= i < |ds| ==> Labelled(ds[0], n, id, ds[i]))
    && (forall i, j :: 0 <= i < j < |ds| ==> ds[i].sequence != ds[j].sequence)
    && (forall q :: 0 <= q < n ==> q in Sequences(ds))
  }

  /** The connection has a free slot for them. */
  ghost predicate Ready(p: Pending, ds: seq<Chunk>, id: nat, n: nat) {
    id !in p && |p| < MAX_INFLIGHT_BROADCASTS_PER_CONN && Delivery(ds, id, n)
  }

  /** The connection when the chunks from `j` up to `k` are held. */
  ghost function Span(p: Pending, ds: seq<Chunk>, id: nat, j: nat, k: nat): Pending
    requires j <= k <= |ds|
  {
    if j == k then p else p[id := ds[j..k]]
  }

  /** Their entries fit next to those already held. */
  ghost predicate Room(p: Pending, ds: seq<Chunk>, j: nat, k: nat)
    requires j <= k <= |ds|
  {
    Total(p) + Entries(ds[j..k]) <= MAX_ACCUMULATED_ENTRIES_PER_CONN
  }

  /** Where the chunks held after `k` arrivals start: behind the last one that was dropped or that was
      the terminal chunk. */
  ghost function Start(p: Pending, ds: seq<Chunk>, k: nat): (j: nat)
    requires k <= |ds|
    ensures j <= k
  {
    if k == 0 then 0
    else
      var j := Start(p, ds, k - 1);
      if !Room(p, ds, j, k) || ds[k - 1].isLast then k else j
  }

  lemma {:induction false} EntriesConcat(a: seq<Chunk>, b: seq<Chunk>)
    ensures Entries(a + b) == Entries(a) + Entries(b)
  {
    if b == [] {
      assert a + b == a;
    } else {
      var n := |b| - 1;
      assert (a + b)[..|a + b| - 1] == a + b[..n];
      EntriesConcat(a, b[..n]);
    }
  }

  lemma SliceEntries(ds: seq<Chunk>, j: nat, k: nat)
    requires j <= k <= |ds|
    ensures Entries(ds[j..k]) <= Entries(ds)
  {
    SplitAt(ds, k);
    EntriesConcat(ds[..k], ds[k..]);
    SplitTake(ds, j, k);
    EntriesConcat(ds[..j], ds[j..k]);
  }

  lemma SpanTotal(p: Pending, ds: seq<Chunk>, id: nat, j: nat, k: nat)
    requires id !in p && j <= k <= |ds|
    ensures Total(Span(p, ds, id, j, k)) == Total(p) + Entries(ds[j..k])
  {
    if j < k {
      TotalPut(p, id, ds[j..k]);
      assert p - {id} == p;
    }
  }

  /** A chunk has not arrived before. */
  lemma NotYet(ds: seq<Chunk>, id: nat, n: nat, j: nat, k: nat)
    requires Delivery(ds, id, n) && j <= k < |ds|
    ensures ds[k].sequence !in Sequences(ds[j..k])
  {
    if ds[k].sequence in Sequences(ds[j..k]) {
      var i := SequenceFrom(ds[j..k], ds[k].sequence);
    }
  }

  lemma SpanPrior(p: Pending, ds: seq<Chunk>, id: nat, n: nat, j: nat, k: nat)
    requires Ready(p, ds, id, n) && j <= k < |ds|
    ensures Prior(Span(p, ds, id, j, k), ds[k]) == ds[j..k] && Fits(ds[j..k], ds[k])
  {
    assert Labelled(ds[0], n, id, ds[k]) && Labelled(ds[0], n, id, ds[j]);
    NotYet(ds, id, n, j, k);
    if j < k { assert ds[j..k][0] == ds[j]; }
  }

  /** The next chunk is accepted exactly when its entries still fit. */
  lemma SpanJoins(p: Pending, ds: seq<Chunk>, id: nat, n: nat, j: nat, k: nat)
    requires Ready(p, ds, id, n) && j <= k < |ds|
    ensures Admissible(Span(p, ds, id, j, k), ds[k])
    ensures Joins(Span(p, ds, id, j, k), ds[k]) <==> Room(p, ds, j, k + 1)
  {
    assert Labelled(ds[0], n, id, ds[k]);
    SpanPrior(p, ds, id, n, j, k);
    SpanTotal(p, ds, id, j, k);
    SliceSnoc(ds, j, k);
    Snoc(ds[j..k], ds[k]);
  }

  /** Where a chunk leaves the connection, when the chunks `prior` of its broadcast came before it. */
  lemma StepShape(q: Pending, p: Pending, prior: seq<Chunk>, c: Chunk)
    requires c.broadcastId !in p && (q == if prior == [] then p else p[c.broadcastId := prior])
    requires Admissible(q, c) && Prior(q, c) == prior
    ensures
      var now := prior + [c];
      Step(q, c) ==
        if !Joins(q, c) then (p, Dropped)
        else if !c.isLast then (p[c.broadcastId := now], Accepted(None))
        else (p, if NoGaps(now) then Accepted(Some(Assemble(now))) else Dropped)
  {
    PutAgain(p, c.broadcastId, prior, prior + [c]);
  }

  lemma PutAgain(p: Pending, id: nat, cs: seq<Chunk>, ds: seq<Chunk>)
    requires id !in p
    ensures var q: Pending := p[id := cs]; q[id := ds] == p[id := ds] && q - {id} == p
    ensures p - {id} == p
  {
  }

  /** What becomes of chunk `k` when the chunks from `j` on are held. */
  ghost function Next(p: Pending, ds: seq<Chunk>, id: nat, j: nat, k: nat): (Pending, MergeOutcome)
    requires j <= k < |ds|
  {
    if !Room(p, ds, j, k + 1) then (p, Dropped)
    else if !ds[k].isLast then (Span(p, ds, id, j, k + 1), Accepted(None))
    else (p, if NoGaps(ds[j..k + 1]) then Accepted(Some(Assemble(ds[j..k + 1]))) else Dropped)
  }

  lemma SpanNext(p: Pending, ds: seq<Chunk>, id: nat, n: nat, j: nat, k: nat)
    requires Ready(p, ds, id, n) && j <= k < |ds|
    ensures Step(Span(p, ds, id, j, k), ds[k]) == Next(p, ds, id, j, k)
  {
    assert Labelled(ds[0], n, id, ds[k]);
    SpanPrior(p, ds, id, n, j, k);
    SpanJoins(p, ds, id, n, j, k);
    StepShape(Span(p, ds, id, j, k), p, ds[j..k], ds[k]);
    SliceSnoc(ds, j, k);
  }

  lemma FeedSnoc(p: Pending, cs: seq<Chunk>, k: nat)
    requires 0 < k <= |cs|
    ensures (Feed(p, cs[..k]), LastOutcome(p, cs[..k])) == Step(Feed(p, cs[..k - 1]), cs[k - 1])
  {
    assert cs[..k][..k - 1] == cs[..k - 1];
  }

  /** After every arrival exactly the chunks from `Start` on are held. */
  lemma {:induction false} FeedIsSpan(p: Pending, ds: seq<Chunk>, id: nat, n: nat, k: nat)
    requires Ready(p, ds, id, n) && k <= |ds|
    ensures Feed(p, ds[..k]) == Span(p, ds, id, Start(p, ds, k), k)
  {
    if k > 0 {
      FeedIsSpan(p, ds, id, n, k - 1);
      FeedSnoc(p, ds, k);
      StartNext(p, ds, id, n, k - 1);
    }
  }

  lemma StartNext(p: Pending, ds: seq<Chunk>, id: nat, n: nat, k: nat)
    requires Ready(p, ds, id, n) && k < |ds|
    ensures Step(Span(p, ds, id, Start(p, ds, k), k), ds[k]).0 == Span(p, ds, id, Start(p, ds, k + 1), k + 1)
  {
    SpanNext(p, ds, id, n, Start(p, ds, k), k);
  }

  /** The terminal chunk leaves no gap only if it comes last and nothing before it is missing. */
  lemma NoGapsIffWhole(ds: seq<Chunk>, id: nat, n: nat, j: nat, k: nat)
    requires Delivery(ds, id, n) && j <= k < |ds| && ds[k].isLast
    ensures NoGaps(ds[j..k + 1]) <==> j == 0 && k + 1 == |ds|
  {
    var now := ds[j..k + 1];
    assert Labelled(ds[0], n, id, ds[k]) && now[k - j] == ds[k];
    SequenceAt(now, k - j);
    if NoGaps(now) {
      MissingOutside(ds, id, n, j, k, 0);
      MissingOutside(ds, id, n, j, k, |ds| - 1);
    }
    if j == 0 && k + 1 == |ds| {
      assert now == ds;
      BelowCount(ds, id, n);
    }
  }

  lemma MissingOutside(ds: seq<Chunk>, id: nat, n: nat, j: nat, k: nat, i: nat)
    requires Delivery(ds, id, n) && j <= k < |ds| && i < |ds|
    requires n - 1 in Sequences(ds[j..k + 1]) && NoGaps(ds[j..k + 1])
    ensures j <= i <= k
  {
    assert Labelled(ds[0], n, id, ds[i]);
    assert ds[i].sequence == n - 1 || ds[i].sequence < n - 1;
    var at := SequenceFrom(ds[j..k + 1], ds[i].sequence);
    assert ds[j..k + 1][at] == ds[j + at];
  }

  lemma BelowCount(ds: seq<Chunk>, id: nat, n: nat)
    requires Delivery(ds, id, n)
    ensures NoGaps(ds)
  {
    forall q, r | 0 <= q < r && r in Sequences(ds) ensures q in Sequences(ds) {
      var i := SequenceFrom(ds, r);
      assert Labelled(ds[0], n, id, ds[i]);
    }
  }

  /** The terminal chunk is at `t`. */
  ghost predicate TerminalAt(ds: seq<Chunk>, t: nat) {
    t < |ds| && forall i :: 0 <= i < |ds| ==> (ds[i].isLast <==> i == t)
  }

  lemma OneTerminal(ds: seq<Chunk>, id: nat, n: nat, t: nat)
    requires Delivery(ds, id, n) && t < |ds| && ds[t].isLast
    ensures TerminalAt(ds, t)
  {
    assert Labelled(ds[0], n, id, ds[t]);
    forall i | 0 <= i < |ds| ensures ds[i].isLast <==> i == t { assert Labelled(ds[0], n, id, ds[i]); }
  }

  ghost predicate RoomForAll(p: Pending, ds: seq<Chunk>) {
    Total(p) + Entries(ds) <= MAX_ACCUMULATED_ENTRIES_PER_CONN
  }

  /** If all entries fit, nothing is dropped: what is held starts at 0, or behind the terminal chunk. */
  lemma {:induction false} StartWithRoom(p: Pending, ds: seq<Chunk>, t: nat, k: nat)
    requires RoomForAll(p, ds) && TerminalAt(ds, t) && k <= |ds|
    ensures Start(p, ds, k) == if k <= t then 0 else t + 1
  {
    if k > 0 {
      StartWithRoom(p, ds, t, k - 1);
      SliceEntries(ds, Start(p, ds, k - 1), k);
    }
  }

  /** A chunk makes the server commit if and only if it is the terminal one, it comes last and the
      entries of all chunks fit. */
  lemma CommitIff(p: Pending, ds: seq<Chunk>, id: nat, n: nat, k: nat)
    requires Ready(p, ds, id, n) && k < |ds|
    ensures
      var q := Feed(p, ds[..k]);
      && (Commits(q, ds[k]) <==> ds[k].isLast && k == |ds| - 1 && RoomForAll(p, ds))
      && (Commits(q, ds[k]) ==> Step(q, ds[k]).1.commit.value == Assemble(ds))
  {
    var j := Start(p, ds, k);
    FeedIsSpan(p, ds, id, n, k);
    SpanNext(p, ds, id, n, j, k);
    if ds[k].isLast {
      NoGapsIffWhole(ds, id, n, j, k);
      OneTerminal(ds, id, n, k);
      if RoomForAll(p, ds) { StartWithRoom(p, ds, k, k); }
      assert ds[0..|ds|] == ds;
    }
  }

  /** What the delivery leaves: nothing, if the terminal chunk comes last; if all fits, exactly the
      chunks behind the terminal one, which keep a slot. */
  lemma WhatIsLeft(p: Pending, ds: seq<Chunk>, id: nat, n: nat, t: nat)
    requires Ready(p, ds, id, n) && TerminalAt(ds, t)
    ensures t == |ds| - 1 ==> Feed(p, ds) == p
    ensures t < |ds| - 1 && RoomForAll(p, ds) ==> Feed(p, ds) == p[id := ds[t + 1..]] && |Feed(p, ds)| == |p| + 1
  {
    FeedIsSpan(p, ds, id, n, |ds|);
    assert ds[..|ds|] == ds;
    if RoomForAll(p, ds) {
      StartWithRoom(p, ds, t, |ds|);
      PutCard(p, id, ds[t + 1..]);
      assert ds[t + 1..|ds|] == ds[t + 1..];
    }
  }

  // ----- for the chunks of a notification -----

  lemma {:induction false} SizeOfSame(a: seq<seq<Entry>>, b: seq<seq<Entry>>)
    requires |a| == |b| && forall f :: 0 <= f < |a| ==> |a[f]| == |b[f]|
    ensures Size(a) == Size(b)
  {
    if a != [] { SizeOfSame(a[1..], b[1..]); }
  }

  /** In whatever order, the chunks have the entries of the notification. */
  lemma EntriesInAnyOrder(ds: seq<Chunk>, b: Broadcast, id: nat)
    requires IsChunking(b.chunks, b.n, id, b.token, b.store, b.m) && Covers(ds, b.chunks, |b.chunks|)
    ensures Entries(ds) == Size(b.n.lists)
  {
    ChunksCarryTheLists(b.chunks, b.n, id, b.token, b.store, b.m);
    CoverLists(ds, b.chunks);
    forall f | 0 <= f < FIELDS ensures |Gather(ds)[f]| == |b.n.lists[f]| {
      SameSize(Gather(ds)[f], b.n.lists[f]);
    }
    SizeOfSame(Gather(ds), b.n.lists);
    GatherSize(ds);
  }

  lemma SameSize<T>(a: seq<T>, b: seq<T>)
    requires multiset(a) == multiset(b)
    ensures |a| == |b|
  {
    assert |multiset(a)| == |a| && |multiset(b)| == |b|;
  }

  /** A notification, chunked by a worker within the limits of the protocol. */
  ghost predicate Sendable(b: Broadcast, id: nat) {
    && IsChunking(b.chunks, b.n, id, b.token, b.store, b.m) && b.n.legacyDigests == []
    && b.token != 0 && b.m <= 8192 && |b.chunks| <= 256
  }

  lemma DeliveryOf(ds: seq<Chunk>, b: Broadcast, id: nat)
    requires Sendable(b, id) && Covers(ds, b.chunks, |b.chunks|)
    ensures Delivery(ds, id, |b.chunks|)
  {
    var cs := b.chunks;
    ChunkingIsLine(cs, b.n, id, b.token, b.store, b.m);
    assert 0 in Sequences(ds);
    forall i | 0 <= i < |ds| ensures Labelled(ds[0], |cs|, id, ds[i]) {
      LabelOf(ds, b, id, i);
      LabelOf(ds, b, id, 0);
    }
  }

  lemma LabelOf(ds: seq<Chunk>, b: Broadcast, id: nat, i: nat)
    requires Sendable(b, id) && Covers(ds, b.chunks, |b.chunks|) && Line(b.chunks, id) && b.chunks[0].token == b.token
    requires i < |ds|
    ensures Labelled(b.chunks[0], |b.chunks|, id, ds[i])
  {
    var k := ds[i].sequence;
    assert InLine(b.chunks[0], |b.chunks|, id, k, b.chunks[k]);
    ChunkSize(b.chunks, b.n, id, b.token, b.store, b.m, k);
  }

  ghost predicate FitsNext(p: Pending, b: Broadcast) {
    Total(p) + Size(b.n.lists) <= 1_000_000
  }

  /** Delivered in any order, each chunk once, to a connection with a free slot, a broadcast is
      committed if and only if the terminal chunk comes last and the entries fit under the
      connection's cap together with those already held; it is then the notification of the worker,
      each list in order of arrival. */
  lemma AnyOrderCommitsIff(p: Pending, b: Broadcast, id: nat, ds: seq<Chunk>, k: nat)
    requires id !in p && |p| < 8 && Sendable(b, id)
    requires Covers(ds, b.chunks, |b.chunks|) && k < |ds|
    ensures
      var q := Feed(p, ds[..k]);
      && (Commits(q, ds[k]) <==> ds[k].isLast && k == |ds| - 1 && FitsNext(p, b))
      && (Commits(q, ds[k]) ==> SameContents(Step(q, ds[k]).1.commit.value, b.n))
  {
    DeliveryOf(ds, b, id);
    EntriesInAnyOrder(ds, b, id);
    CommitIff(p, ds, id, |b.chunks|, k);
    if Commits(Feed(p, ds[..k]), ds[k]) { AssembledInAnyOrder(ds, b, id); }
  }

  lemma AssembledInAnyOrder(ds: seq<Chunk>, b: Broadcast, id: nat)
    requires IsChunking(b.chunks, b.n, id, b.token, b.store, b.m)
    requires ds != [] && Covers(ds, b.chunks, |b.chunks|)
    ensures SameContents(Assemble(ds), b.n)
  {
    ChunkingIsLine(b.chunks, b.n, id, b.token, b.store, b.m);
    ChunksCarryTheLists(b.chunks, b.n, id, b.token, b.store, b.m);
    CoverHeader(ds, b.chunks, id);
    CoverLists(ds, b.chunks);
  }

  /** A broadcast whose terminal chunk comes last leaves no trace, committed or not. If it comes
      earlier and the entries fit, the chunks behind it open an accumulator that keeps one of the
      slots: no chunk of this delivery removes it. */
  lemma AnyOrderLeaves(p: Pending, b: Broadcast, id: nat, ds: seq<Chunk>, t: nat)
    requires id !in p && |p| < 8 && Sendable(b, id)
    requires Covers(ds, b.chunks, |b.chunks|) && t < |ds| && ds[t].isLast
    ensures t == |ds| - 1 ==> Feed(p, ds) == p
    ensures t < |ds| - 1 && FitsNext(p, b) ==> Feed(p, ds) == p[id := ds[t + 1..]] && |Feed(p, ds)| == |p| + 1
  {
    DeliveryOf(ds, b, id);
    EntriesInAnyOrder(ds, b, id);
    OneTerminal(ds, id, |b.chunks|, t);
    WhatIsLeft(p, ds, id, |b.chunks|, t);
  }

  /** The last chunk is never merely accepted. */
  lemma LastChunkDecides(q: Pending, c: Chunk)
    requires c.isLast && !Commits(q, c)
    ensures Step(q, c).1 == Dropped
  {
  }

  lemma AssembleWhole(b: Broadcast, id: nat)
    requires IsChunking(b.chunks, b.n, id, b.token, b.store, b.m) && b.n.legacyDigests == []
    ensures Assemble(b.chunks) == b.n && Covers(b.chunks, b.chunks, |b.chunks|)
  {
    var cs := b.chunks;
    ChunkingIsLine(cs, b.n, id, b.token, b.store, b.m);
    ChunksCarryTheLists(cs, b.n, id, b.token, b.store, b.m);
    LineCovers(cs, id);
    CoverHeader(cs, cs, id);
  }

  lemma {:induction false} PrefixSequences(cs: seq<Chunk>, id: nat, k: nat)
    requires Line(cs, id) && k <= |cs|
    ensures forall q :: q in Sequences(cs[..k]) <==> 0 <= q < k
  {
    if k > 0 {
      PrefixSequences(cs, id, k - 1);
      assert cs[..k][..k - 1] == cs[..k - 1];
      assert InLine(cs[0], |cs|, id, k - 1, cs[k - 1]);
    }
  }

  lemma LineCovers(cs: seq<Chunk>, id: nat)
    requires Line(cs, id)
    ensures Covers(cs, cs, |cs|)
  {
    PrefixSequences(cs, id, |cs|);
    assert cs[..|cs|] == cs;
    assert forall i :: 0 <= i < |cs| ==> InLine(cs[0], |cs|, id, i, cs[i]);
  }

  /** In order the lists come out in order too: the very notification is committed if and only if its
      entries fit, and either way the connection is left as it was. */
  lemma InOrderCommitsIffItFits(p: Pending, b: Broadcast, id: nat)
    requires id !in p && |p| < 8 && Sendable(b, id)
    ensures LastOutcome(p, b.chunks) == (if FitsNext(p, b) then Accepted(Some(b.n)) else Dropped)
    ensures Feed(p, b.chunks) == p
  {
    var cs, k := b.chunks, |b.chunks| - 1;
    AssembleWhole(b, id);
    DeliveryOf(cs, b, id);
    EntriesInAnyOrder(cs, b, id);
    assert Labelled(cs[0], |cs|, id, cs[k]) && cs[k].sequence == k;
    CommitIff(p, cs, id, |cs|, k);
    AnyOrderLeaves(p, b, id, cs, k);
    if !FitsNext(p, b) { LastChunkDecides(Feed(p, cs[..k]), cs[k]); }
  }

  /** From the worker's notification to the server's: whatever the chunker makes of it, delivered in order
      and with room for it, is committed with every list as it was, and the legacy digests as infos. */
  lemma NotificationArrives(p: Pending, n: Notification, id: nat, token: nat, store: string, m: nat, cs: seq<Chunk>)
    requires id !in p && |p| < 8 && token != 0 && m <= 8192
    requires IsChunking(cs, Canonical(n), id, token, store, m) && |cs| <= 256
    ensures
      var fits := Total(p) + Size(n.lists) + |n.legacyDigests| <= 1_000_000;
      if fits then
        LastOutcome(p, cs).Accepted? && LastOutcome(p, cs).commit.Some? && Folds(n, LastOutcome(p, cs).commit.value)
      else LastOutcome(p, cs) == Dropped
  {
    CanonicalFolds(n);
    CanonicalSize(n);
    InOrderCommitsIffItFits(p, Broadcast(Canonical(n), token, store, m, cs), id);
  }
}

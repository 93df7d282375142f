/**
The worker side of chunked BlobsAvailable notifications, nativelink-util/src/blobs_available_chunking.rs.

A notification's nine repeated fields are kept as nine lists, in the order in which the chunker
drains them. Its scalar fields travel in chunk 0 only.
*/
module BlobsAvailable {
  import opened Options
  import opened SeqLemmas

  datatype Digest = Digest(hash: string, sizeBytes: int)

  /** An element of one of the repeated fields. */
  datatype Entry =
    | Info(digest: Digest, bootEpoch: nat, counter: nat)
    | Bare(digest: Digest)
    | MirrorPin(digest: Digest, storeId: string)

  datatype Header = Header(
    workerCasEndpoint: string, isFullSubtreeSnapshot: bool,
    cpuLoadPct: nat, pCoreLoadPct: nat, eCoreLoadPct: nat,
    mirrorUsedBytes: nat, mirrorMaxBytes: nat, indefinitePinSaturated: bool,
    swapUsedBytes: nat, memoryPressureLevel: nat, memoryPressured: bool,
    availableDiskBytes: nat, diskPressured: bool, constructLatencyMsP95: nat)

  const DEFAULT_HEADER := Header("", false, 0, 0, 0, 0, 0, false, 0, 0, false, 0, false, 0)

  const FIELDS := 9
  const NO_ENTRIES: seq<seq<Entry>> := [[], [], [], [], [], [], [], [], []]

  type Lists = ls: seq<seq<Entry>> | |ls| == FIELDS witness NO_ENTRIES

  datatype Notification = Notification(
    header: Header, isFullSnapshot: bool, legacyDigests: seq<Digest>, lists: Lists)

  datatype Chunk = Chunk(
    broadcastId: nat, sequence: nat, isLast: bool, token: nat, storeId: string,
    isFullSnapshot: bool, header: Header, lists: Lists)

  const MAX_CHUNKS_PER_BROADCAST := 256

  /** Legacy digests become infos without a timestamp. */
  function Legacy(ds: seq<Digest>): seq<Entry> {
    seq(|ds|, i requires 0 <= i < |ds| => Info(ds[i], 0, 0))
  }

  /** The notification as the chunked wire carries it: field 2 folded into `digest_infos`. */
  function Canonical(n: Notification): Notification {
    n.(legacyDigests := [], lists := n.lists[0 := n.lists[0] + Legacy(n.legacyDigests)])
  }

  /** `c` is `n` with its legacy digests behind the infos, without timestamps, and all else as it was. */
  ghost predicate Folds(n: Notification, c: Notification) {
    && c.header == n.header && c.isFullSnapshot == n.isFullSnapshot && c.legacyDigests == []
    && |c.lists[0]| == |n.lists[0]| + |n.legacyDigests|
    && (forall i :: 0 <= i < |n.lists[0]| ==> c.lists[0][i] == n.lists[0][i])
    && (forall i :: 0 <= i < |n.legacyDigests| ==> c.lists[0][|n.lists[0]| + i] == Info(n.legacyDigests[i], 0, 0))
    && (forall f :: 1 <= f < FIELDS ==> c.lists[f] == n.lists[f])
  }

  lemma CanonicalFolds(n: Notification)
    ensures Folds(n, Canonical(n))
  {
  }

  lemma CanonicalSize(n: Notification)
    ensures Size(Canonical(n).lists) == Size(n.lists) + |n.legacyDigests|
  {
    assert Canonical(n).lists[1..] == n.lists[1..];
  }

  function Size(ls: seq<seq<Entry>>): nat {
    if ls == [] then 0 else |ls[0]| + Size(ls[1..])
  }

  /** The entries of one list, each with its field number `f`. */
  function TagList(es: seq<Entry>, f: nat): seq<(nat, Entry)> {
    seq(|es|, i requires 0 <= i < |es| => (f, es[i]))
  }

  /** All entries in drain order, each with its field number; the first list is field `f`. */
  function Tagged(ls: seq<seq<Entry>>, f: nat): seq<(nat, Entry)> {
    if ls == [] then [] else TagList(ls[0], f) + Tagged(ls[1..], f + 1)
  }

  function Min(a: nat, b: nat): nat {
    if a < b then a else b
  }

  /** What one chunk of at most `budget` entries takes from the lists, and what it leaves. */
  function Split(ls: seq<seq<Entry>>, budget: nat): (r: (seq<seq<Entry>>, seq<seq<Entry>>))
    ensures |r.0| == |ls| && |r.1| == |ls|
  {
    if ls == [] then ([], [])
    else
      var k := Min(budget, |ls[0]|);
      var (taken, left) := Split(ls[1..], budget - k);
      ([ls[0][..k]] + taken, [ls[0][k..]] + left)
  }

  lemma {:induction false} TaggedSize(ls: seq<seq<Entry>>, f: nat)
    ensures |Tagged(ls, f)| == Size(ls)
  {
    if ls != [] { TaggedSize(ls[1..], f + 1); }
  }

  lemma WindowOfConcat<T>(a: seq<T>, b: seq<T>, budget: nat)
    ensures
      var i := Min(budget, |a|);
      var j := Min(budget - i, |b|);
      var k := Min(budget, |a| + |b|);
      (a + b)[..k] == a[..i] + b[..j] && (a + b)[k..] == a[i..] + b[j..]
  {
    if budget < |a| {
      assert (a + b)[..budget] == a[..budget] && (a + b)[budget..] == a[budget..] + b;
    } else {
      var j := Min(budget - |a|, |b|);
      assert (a + b)[..|a| + j] == a + b[..j] && (a + b)[|a| + j..] == b[j..];
    }
  }

  lemma SplitStep(ls: seq<seq<Entry>>, budget: nat)
    requires ls != []
    ensures
      var k := Min(budget, |ls[0]|);
      && Split(ls, budget).0 == [ls[0][..k]] + Split(ls[1..], budget - k).0
      && Split(ls, budget).1 == [ls[0][k..]] + Split(ls[1..], budget - k).1
  {
  }

  lemma TaggedSplitStep(ls: seq<seq<Entry>>, budget: nat, f: nat)
    requires ls != []
    ensures
      var k := Min(budget, |ls[0]|);
      && Tagged(Split(ls, budget).0, f) == TagList(ls[0], f)[..k] + Tagged(Split(ls[1..], budget - k).0, f + 1)
      && Tagged(Split(ls, budget).1, f) == TagList(ls[0], f)[k..] + Tagged(Split(ls[1..], budget - k).1, f + 1)
  {
    var k := Min(budget, |ls[0]|);
    assert Split(ls, budget).0[1..] == Split(ls[1..], budget - k).0;
    assert Split(ls, budget).1[1..] == Split(ls[1..], budget - k).1;
    assert TagList(ls[0][..k], f) == TagList(ls[0], f)[..k];
    assert TagList(ls[0][k..], f) == TagList(ls[0], f)[k..];
  }

  /** Taking a chunk cuts the tagged list in two. */
  lemma {:induction false} SplitCuts(ls: seq<seq<Entry>>, budget: nat, f: nat)
    ensures
      var k := Min(budget, |Tagged(ls, f)|);
      && Tagged(Split(ls, budget).0, f) == Tagged(ls, f)[..k]
      && Tagged(Split(ls, budget).1, f) == Tagged(ls, f)[k..]
  {
    if ls != [] {
      SplitCuts(ls[1..], budget - Min(budget, |ls[0]|), f + 1);
      TaggedSplitStep(ls, budget, f);
      WindowOfConcat(TagList(ls[0], f), Tagged(ls[1..], f + 1), budget);
    }
  }

  /** `drain_into`: moves items one by one until the budget or the source is used up. */
  method DrainInto(src: seq<Entry>, budget: nat) returns (taken: seq<Entry>, left: seq<Entry>, remaining: nat)
    ensures taken == src[..Min(budget, |src|)] && left == src[Min(budget, |src|)..]
    ensures remaining == budget - |taken|
  {
    taken, left, remaining := [], src, budget;
    while remaining > 0 && left != []
      invariant taken + left == src
      invariant |taken| + remaining == budget
    {
      taken, left, remaining := taken + [left[0]], left[1..], remaining - 1;
    }
  }

  /** Fills one chunk from the nine sources, in field order. */
  method FillChunk(src: Lists, budget: nat) returns (taken: Lists, left: Lists)
    ensures taken == Split(src, budget).0 && left == Split(src, budget).1
  {
    var filled: seq<seq<Entry>>, rest: seq<seq<Entry>>, remaining := [], [], budget;
    assert src[0..] == src;
    for f := 0 to FIELDS
      invariant |filled| == |rest| == f
      invariant filled + Split(src[f..], remaining).0 == Split(src, budget).0
      invariant rest + Split(src[f..], remaining).1 == Split(src, budget).1
    {
      var t, l, r := DrainInto(src[f], remaining);
      assert src[f..][1..] == src[f + 1..];
      SplitStep(src[f..], remaining);
      Associate(filled, [t], Split(src[f + 1..], r).0);
      Associate(rest, [l], Split(src[f + 1..], r).1);
      filled, rest, remaining := filled + [t], rest + [l], r;
    }
    assert src[FIELDS..] == [];
    taken, left := filled, rest;
  }

  /** Where chunk `i` starts: `i * m`. */
  function Offset(i: nat, m: nat): nat {
    if i == 0 then 0 else Offset(i - 1, m) + m
  }

  lemma {:induction false} OffsetIsProduct(i: nat, m: nat)
    ensures Offset(i, m) == i * m
  {
    if i > 0 {
      OffsetIsProduct(i - 1, m);
      assert i * m == (i - 1) * m + m;
    }
  }

  lemma {:induction false} OffsetMono(i: nat, j: nat, m: nat)
    requires i <= j
    ensures Offset(i, m) <= Offset(j, m)
    decreases j
  {
    if i < j { OffsetMono(i, j - 1, m); }
  }

  lemma NextOffset(k: nat, cap: nat, m: nat)
    requires k < cap
    ensures Offset(k + 1, m) == Offset(k, m) + m <= cap * m
    ensures k + 1 == cap ==> Offset(k + 1, m) == cap * m
  {
    OffsetMono(k + 1, cap, m);
    OffsetIsProduct(cap, m);
  }

  /** Every scalar has its default. */
  ghost predicate NoScalars(h: Header) {
    && h.workerCasEndpoint == "" && !h.isFullSubtreeSnapshot
    && h.cpuLoadPct == 0 && h.pCoreLoadPct == 0 && h.eCoreLoadPct == 0
    && h.mirrorUsedBytes == 0 && h.mirrorMaxBytes == 0 && !h.indefinitePinSaturated
    && h.swapUsedBytes == 0 && h.memoryPressureLevel == 0 && !h.memoryPressured
    && h.availableDiskBytes == 0 && !h.diskPressured && h.constructLatencyMsP95 == 0
  }

  /** Chunk `i` carries entries `i * m` to `i * m + m`; identifiers are repeated, scalars are not. */
  ghost predicate IsChunk(c: Chunk, i: nat, last: bool, n: Notification, id: nat, token: nat, store: string, m: nat) {
    && c.broadcastId == id && c.token == token && c.storeId == store
    && c.isFullSnapshot == n.isFullSnapshot
    && c.sequence == i && c.isLast == last
    && (if i == 0 then c.header == n.header else NoScalars(c.header))
    && IsWindow(Tagged(c.lists, 0), Tagged(n.lists, 0), Offset(i, m), m)
  }

  ghost predicate IsWindow<T>(part: seq<T>, all: seq<T>, from: nat, m: nat) {
    from <= |all| && part == all[from..Min(from + m, |all|)]
  }

  /** A list of chunks that carries all of `n`, in as few chunks of `m` entries as possible. */
  ghost predicate IsChunking(cs: seq<Chunk>, n: Notification, id: nat, token: nat, store: string, m: nat) {
    && cs != []
    && (forall i :: 0 <= i < |cs| ==> IsChunk(cs[i], i, i == |cs| - 1, n, id, token, store, m))
    && Size(n.lists) <= Offset(|cs|, m)
    && (|cs| > 1 ==> Offset(|cs| - 1, m) < Size(n.lists))
  }

  /** Fills the chunk that starts at entry `from`, from what is left there. */
  method FillChunkAt(src: Lists, ghost all: seq<(nat, Entry)>, ghost from: nat, m: nat) returns (taken: Lists, left: Lists)
    requires from <= |all| && Tagged(src, 0) == all[from..]
    ensures IsWindow(Tagged(taken, 0), all, from, m)
    ensures Tagged(left, 0) == all[Min(from + m, |all|)..]
    ensures Size(taken) == Min(m, |all| - from) && Size(left) == |all| - Min(from + m, |all|)
  {
    taken, left := FillChunk(src, m);
    SplitCuts(src, m, 0);
    CutAgain(all, from, Min(m, |all| - from));
    TaggedSize(taken, 0);
    TaggedSize(left, 0);
  }

  ghost predicate AllOpen(cs: seq<Chunk>, n: Notification, id: nat, token: nat, store: string, m: nat) {
    forall i :: 0 <= i < |cs| ==> IsChunk(cs[i], i, false, n, id, token, store, m)
  }

  lemma Append(cs: seq<Chunk>, c: Chunk, last: bool, n: Notification, id: nat, token: nat, store: string, m: nat)
    requires AllOpen(cs, n, id, token, store, m) && IsChunk(c, |cs|, last, n, id, token, store, m)
    requires cs != [] ==> Offset(|cs|, m) < Size(n.lists)
    requires last <==> Size(n.lists) <= Offset(|cs| + 1, m)
    ensures if last then IsChunking(cs + [c], n, id, token, store, m) else AllOpen(cs + [c], n, id, token, store, m)
  {
    forall i | 0 <= i < |cs + [c]|
      ensures IsChunk((cs + [c])[i], i, last && i == |cs|, n, id, token, store, m)
    {
      if i < |cs| { assert (cs + [c])[i] == cs[i]; }
    }
  }

  /** The loop of `chunk_blobs_available`, for chunks of `m` entries and at most `cap` chunks. */
  method EmitChunks(n: Notification, id: nat, token: nat, store: string, m: nat, cap: nat)
    returns (r: Option<seq<Chunk>>)
    requires m > 0 && cap > 0
    ensures r.None? <==> Size(n.lists) > cap * m
    ensures r.Some? ==> IsChunking(r.value, n, id, token, store, m) && |r.value| <= cap
  {
    var src: Lists := n.lists;
    ghost var all := Tagged(n.lists, 0);
    TaggedSize(n.lists, 0);
    assert all[0..] == all;
    var chunks: seq<Chunk> := [];
    while true
      invariant |chunks| < cap
      invariant Offset(|chunks|, m) <= |all| && Tagged(src, 0) == all[Offset(|chunks|, m)..]
      invariant chunks != [] ==> Offset(|chunks|, m) < |all|
      invariant AllOpen(chunks, n, id, token, store, m)
      decreases cap - |chunks|
    {
      var k := |chunks|;
      var taken, left := FillChunkAt(src, all, Offset(k, m), m);
      var last := Size(left) == 0;
      var header := if k == 0 then n.header else DEFAULT_HEADER;
      var c := Chunk(id, k, last, token, store, n.isFullSnapshot, header, taken);
      NextOffset(k, cap, m);
      Append(chunks, c, last, n, id, token, store, m);
      chunks, src := chunks + [c], left;
      if last {
        return Some(chunks);
      }
      // A chunk that drains nothing while entries are left would also end the source's loop.
      assert Size(taken) == m;
      if |chunks| >= cap {
        return None;
      }
    }
  }

  /** `chunk_blobs_available`. It fails exactly when the entries do not fit into 256 chunks. */
  method ChunkBlobsAvailable(n: Notification, id: nat, token: nat, store: string, maxPerChunk: nat)
    returns (r: Option<seq<Chunk>>)
    ensures
      var m := if maxPerChunk == 0 then 1 else maxPerChunk;
      && (r.None? <==> Size(n.lists) + |n.legacyDigests| > 256 * m)
      && (r.Some? ==> IsChunking(r.value, Canonical(n), id, token, store, m) && |r.value| <= 256)
    ensures Folds(n, Canonical(n))
  {
    var m := if maxPerChunk == 0 then 1 else maxPerChunk;
    CanonicalFolds(n);
    CanonicalSize(n);
    r := EmitChunks(Canonical(n), id, token, store, m, MAX_CHUNKS_PER_BROADCAST);
  }
}

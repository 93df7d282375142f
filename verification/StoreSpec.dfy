/**
The store specifications that the benchmark takes over from production, benchmarks/src/composition.rs:
rewriting them in place, and searching them.
*/
module StoreSpec {
  import opened Options

  /** `more` stands for the fields of a specification that nothing here looks at. */
  datatype Policy = Policy(maxBytes: nat, more: string)

  datatype Shard = Shard(store: Spec, weight: Option<nat>)

  datatype Spec =
    | Filesystem(contentPath: string, tempPath: string, policy: Option<Policy>, more: string)
    | FastSlow(fast: Spec, slow: Spec, more: string)
    | Verify(backend: Spec, more: string)
    | ExistenceCache(backend: Spec, more: string)
    | SizePartitioning(size: nat, lower: Spec, upper: Spec)
    | Compression(backend: Spec, more: string)
    | CacheMetrics(backend: Spec, more: string)
    | Dedup(index: Spec, content: Spec, more: string)
    | CompletenessChecking(backend: Spec, cas: Spec)
    | Sharded(stores: seq<Shard>)
    | Memory(memoryPolicy: Option<Policy>, more: string)
    | Redis(more: string)
    | Ref(name: string)
    | OtherLeaf(more: string) // Noop, Grpc, Mongo, cloud object stores, ONTAP

  datatype StoreConfig = StoreConfig(name: string, spec: Spec)

  /** The directories the benchmark gives its stores. */
  datatype Paths = Paths(content: string, temp: string)

  const BENCH_FILESYSTEM_MAX_BYTES := 64 * 1024 * 1024 * 1024
  const REDIS_STORE_NAMES := {"REDIS_AC_STORE", "REDIS_CAS_SMALL_STORE"}
  const DEFAULT_POLICY: string := ""
  const BENCH_MEMORY := Memory(Some(Policy(4_000_000_000, DEFAULT_POLICY)), DEFAULT_POLICY)

  function Clamp(policy: Option<Policy>): Option<Policy> {
    if policy.Some? && policy.value.maxBytes > BENCH_FILESYSTEM_MAX_BYTES
    then Some(policy.value.(maxBytes := BENCH_FILESYSTEM_MAX_BYTES)) else policy
  }

  // ----- rewriting -----

  function Rewrite(s: Spec, to: Paths): Spec
    decreases s
  {
    match s
    case Filesystem(_, _, policy, more) => Filesystem(to.content, to.temp, Clamp(policy), more)
    case FastSlow(fast, slow, more) => FastSlow(Rewrite(fast, to), Rewrite(slow, to), more)
    case Verify(backend, more) => Verify(Rewrite(backend, to), more)
    case ExistenceCache(backend, more) => ExistenceCache(Rewrite(backend, to), more)
    case SizePartitioning(size, lower, upper) => SizePartitioning(size, Rewrite(lower, to), Rewrite(upper, to))
    case Compression(backend, more) => Compression(Rewrite(backend, to), more)
    case CacheMetrics(backend, more) => CacheMetrics(Rewrite(backend, to), more)
    case Dedup(index, content, more) => Dedup(Rewrite(index, to), Rewrite(content, to), more)
    case CompletenessChecking(backend, cas) => CompletenessChecking(Rewrite(backend, to), Rewrite(cas, to))
    case Sharded(stores) => Sharded(RewriteShards(stores, to))
    case _ => s
  }

  function RewriteShards(stores: seq<Shard>, to: Paths): (r: seq<Shard>)
    ensures |r| == |stores|
    decreases stores
  {
    if stores == [] then [] else [RewriteShard(stores[0], to)] + RewriteShards(stores[1..], to)
  }

  function RewriteShard(s: Shard, to: Paths): Shard
    decreases s
  {
    s.(store := Rewrite(s.store, to))
  }

  method RewriteFilesystemPaths(s: Spec, to: Paths) returns (r: Spec)
    ensures r == Rewrite(s, to)
    decreases s, 1
  {
    match s
    case Filesystem(_, _, policy, more) =>
      var capped := policy;
      if policy.Some? && policy.value.maxBytes > BENCH_FILESYSTEM_MAX_BYTES {
        capped := Some(policy.value.(maxBytes := BENCH_FILESYSTEM_MAX_BYTES));
      }
      r := Filesystem(to.content, to.temp, capped, more);
    case FastSlow(fast, slow, more) =>
      var a := RewriteFilesystemPaths(fast, to);
      var b := RewriteFilesystemPaths(slow, to);
      r := FastSlow(a, b, more);
    case Verify(backend, more) =>
      var a := RewriteFilesystemPaths(backend, to);
      r := Verify(a, more);
    case ExistenceCache(backend, more) =>
      var a := RewriteFilesystemPaths(backend, to);
      r := ExistenceCache(a, more);
    case SizePartitioning(size, lower, upper) =>
      var a := RewriteFilesystemPaths(lower, to);
      var b := RewriteFilesystemPaths(upper, to);
      r := SizePartitioning(size, a, b);
    case Compression(backend, more) =>
      var a := RewriteFilesystemPaths(backend, to);
      r := Compression(a, more);
    case CacheMetrics(backend, more) =>
      var a := RewriteFilesystemPaths(backend, to);
      r := CacheMetrics(a, more);
    case Dedup(index, content, more) =>
      var a := RewriteFilesystemPaths(index, to);
      var b := RewriteFilesystemPaths(content, to);
      r := Dedup(a, b, more);
    case CompletenessChecking(backend, cas) =>
      var a := RewriteFilesystemPaths(backend, to);
      var b := RewriteFilesystemPaths(cas, to);
      r := CompletenessChecking(a, b);
    case Sharded(stores) =>
      var shards := RewriteEachShard(stores, to);
      r := Sharded(shards);
    case _ =>
      r := s;
  }

  /** The loop over the shards. */
  method RewriteEachShard(stores: seq<Shard>, to: Paths) returns (done: seq<Shard>)
    ensures done == RewriteShards(stores, to)
    decreases Sharded(stores), 0
  {
    done := [];
    for i := 0 to |stores|
      invariant done + RewriteShards(stores[i..], to) == RewriteShards(stores, to)
    {
      var a := RewriteFilesystemPaths(stores[i].store, to);
      done := done + [Shard(a, stores[i].weight)];
      assert stores[i..][1..] == stores[i + 1..];
    }
  }

  // ----- what the rewrite does, node by node -----

  function ShardSpecs(stores: seq<Shard>): seq<Spec> {
    seq(|stores|, i requires 0 <= i < |stores| => stores[i].store)
  }

  function Children(s: Spec): seq<Spec> {
    match s
    case FastSlow(fast, slow, _) => [fast, slow]
    case Verify(backend, _) => [backend]
    case ExistenceCache(backend, _) => [backend]
    case SizePartitioning(_, lower, upper) => [lower, upper]
    case Compression(backend, _) => [backend]
    case CacheMetrics(backend, _) => [backend]
    case Dedup(index, content, _) => [index, content]
    case CompletenessChecking(backend, cas) => [backend, cas]
    case Sharded(stores) => ShardSpecs(stores)
    case _ => []
  }

  const BLANK := Ref("")

  /** A node without what is below it. */
  function Own(s: Spec): Spec {
    match s
    case FastSlow(_, _, more) => FastSlow(BLANK, BLANK, more)
    case Verify(_, more) => Verify(BLANK, more)
    case ExistenceCache(_, more) => ExistenceCache(BLANK, more)
    case SizePartitioning(size, _, _) => SizePartitioning(size, BLANK, BLANK)
    case Compression(_, more) => Compression(BLANK, more)
    case CacheMetrics(_, more) => CacheMetrics(BLANK, more)
    case Dedup(_, _, more) => Dedup(BLANK, BLANK, more)
    case CompletenessChecking(_, _) => CompletenessChecking(BLANK, BLANK)
    case Sharded(stores) => Sharded(seq(|stores|, i requires 0 <= i < |stores| => Shard(BLANK, stores[i].weight)))
    case _ => s
  }

  /** The node reached by following child numbers. */
  function At(s: Spec, path: seq<nat>): Option<Spec>
    decreases |path|
  {
    if path == [] then Some(s)
    else if path[0] < |Children(s)| then At(Children(s)[path[0]], path[1..])
    else None
  }

  /** A node and its children are all there is to a specification. */
  lemma OwnAndChildrenDetermine(s: Spec, t: Spec)
    requires Own(s) == Own(t) && Children(s) == Children(t)
    ensures s == t
  {
    if s.Sharded? {
      forall i | 0 <= i < |s.stores| ensures s.stores[i] == t.stores[i] {
        assert Own(s).stores[i].weight == Own(t).stores[i].weight;
        assert Children(s)[i] == Children(t)[i];
      }
    } else {
      assert |Children(s)| > 0 ==> Children(s)[0] == Children(t)[0];
      assert |Children(s)| > 1 ==> Children(s)[1] == Children(t)[1];
    }
  }

  /** The smaller of the old cap and 64 GiB, if there is a policy; the rest of it as it was. */
  ghost predicate Lowered(was: Option<Policy>, now: Option<Policy>) {
    && (now.Some? <==> was.Some?)
    && (was.Some? ==>
          && now.value.more == was.value.more
          && now.value.maxBytes <= was.value.maxBytes && now.value.maxBytes <= 68_719_476_736
          && (now.value.maxBytes == was.value.maxBytes || now.value.maxBytes == 68_719_476_736))
  }

  /** Of the nodes themselves only Filesystem nodes change: both paths, and the cap lowered. */
  ghost predicate NodeRewritten(was: Spec, now: Spec, to: Paths) {
    if was.Filesystem? then
      && now.Filesystem? && now.contentPath == to.content && now.tempPath == to.temp
      && Lowered(was.policy, now.policy) && now.more == was.more
    else now == was
  }

  /** At `path` there is a node before exactly if there is one after, and it is the rewritten one. */
  ghost predicate RewrittenAt(was: Spec, now: Spec, to: Paths, path: seq<nat>) {
    && (At(now, path).Some? <==> At(was, path).Some?)
    && (At(was, path).Some? ==> NodeRewritten(Own(At(was, path).value), Own(At(now, path).value), to))
  }

  lemma {:induction false} ShardsAt(stores: seq<Shard>, to: Paths, i: nat)
    requires i < |stores|
    ensures RewriteShards(stores, to)[i] == RewriteShard(stores[i], to)
  {
    if i > 0 { ShardsAt(stores[1..], to, i - 1); }
  }

  lemma RewriteHere(s: Spec, to: Paths)
    ensures NodeRewritten(Own(s), Own(Rewrite(s, to)), to)
    ensures |Children(Rewrite(s, to))| == |Children(s)|
    ensures forall i :: 0 <= i < |Children(s)| ==> Children(Rewrite(s, to))[i] == Rewrite(Children(s)[i], to)
  {
    if s.Sharded? {
      forall i | 0 <= i < |s.stores| ensures RewriteShards(s.stores, to)[i] == RewriteShard(s.stores[i], to) {
        ShardsAt(s.stores, to, i);
      }
    }
  }

  /** At every place of every specification, the rewrite puts the rewritten node, and no place
      appears or goes away. */
  lemma {:induction false} RewriteEverywhere(s: Spec, to: Paths, path: seq<nat>)
    ensures RewrittenAt(s, Rewrite(s, to), to, path)
    decreases |path|
  {
    RewriteHere(s, to);
    if path != [] && path[0] < |Children(s)| {
      RewriteEverywhere(Children(s)[path[0]], to, path[1..]);
    }
  }

  /** The last rewrite wins; rewriting twice alike is rewriting once. */
  lemma {:induction false} LastRewriteWins(s: Spec, to: Paths, again: Paths)
    ensures Rewrite(Rewrite(s, to), again) == Rewrite(s, again)
    decreases s
  {
    match s
    case Filesystem(_, _, _, _) =>
    case FastSlow(a, b, _) => LastRewriteWins(a, to, again); LastRewriteWins(b, to, again);
    case Verify(a, _) => LastRewriteWins(a, to, again);
    case ExistenceCache(a, _) => LastRewriteWins(a, to, again);
    case SizePartitioning(_, a, b) => LastRewriteWins(a, to, again); LastRewriteWins(b, to, again);
    case Compression(a, _) => LastRewriteWins(a, to, again);
    case CacheMetrics(a, _) => LastRewriteWins(a, to, again);
    case Dedup(a, b, _) => LastRewriteWins(a, to, again); LastRewriteWins(b, to, again);
    case CompletenessChecking(a, b) => LastRewriteWins(a, to, again); LastRewriteWins(b, to, again);
    case Sharded(stores) => LastShardRewriteWins(stores, to, again);
    case _ =>
  }

  lemma {:induction false} LastShardRewriteWins(stores: seq<Shard>, to: Paths, again: Paths)
    ensures RewriteShards(RewriteShards(stores, to), again) == RewriteShards(stores, again)
    decreases stores
  {
    if stores != [] {
      OneShard(stores[0], to, again);
      LastShardRewriteWins(stores[1..], to, again);
      assert RewriteShards(stores, to)[1..] == RewriteShards(stores[1..], to);
    }
  }

  lemma {:induction false} OneShard(s: Shard, to: Paths, again: Paths)
    ensures RewriteShard(RewriteShard(s, to), again) == RewriteShard(s, again)
    decreases s
  {
    LastRewriteWins(s.store, to, again);
  }

  // ----- the overrides -----

  function Override(c: StoreConfig, to: Paths): StoreConfig {
    c.(spec := if c.name in REDIS_STORE_NAMES then BENCH_MEMORY else Rewrite(c.spec, to))
  }

  function OverrideAll(cs: seq<StoreConfig>, to: Paths): (r: seq<StoreConfig>) {
    seq(|cs|, i requires 0 <= i < |cs| => Override(cs[i], to))
  }

  /** A store replaced by name holds 4 GB in memory; any other is rewritten at every place. */
  ghost predicate Overridden(was: StoreConfig, now: StoreConfig, to: Paths) {
    && now.name == was.name
    && if was.name == "REDIS_AC_STORE" || was.name == "REDIS_CAS_SMALL_STORE" then
         now.spec.Memory? && now.spec.memoryPolicy.Some? && now.spec.memoryPolicy.value.maxBytes == 4_000_000_000
       else forall path :: RewrittenAt(was.spec, now.spec, to, path)
  }

  lemma OverrideOverrides(c: StoreConfig, to: Paths)
    ensures Overridden(c, Override(c, to), to)
  {
    forall path ensures RewrittenAt(c.spec, Rewrite(c.spec, to), to, path) { RewriteEverywhere(c.spec, to, path); }
  }

  method ApplyBenchOverrides(stores: array<StoreConfig>, to: Paths)
    modifies stores
    ensures stores[..] == OverrideAll(old(stores[..]), to)
    ensures forall i :: 0 <= i < stores.Length ==> Overridden(old(stores[i]), stores[i], to)
  {
    ghost var was := stores[..];
    for i := 0 to stores.Length
      invariant forall k :: 0 <= k < i ==> stores[k] == Override(was[k], to)
      invariant forall k :: i <= k < stores.Length ==> stores[k] == was[k]
    {
      if stores[i].name in REDIS_STORE_NAMES {
        stores[i] := stores[i].(spec := BENCH_MEMORY);
      } else {
        var spec := RewriteFilesystemPaths(stores[i].spec, to);
        stores[i] := stores[i].(spec := spec);
      }
    }
    forall i | 0 <= i < stores.Length ensures Overridden(was[i], stores[i], to) { OverrideOverrides(was[i], to); }
  }

  // ----- Redis -----

  ghost predicate HasRedis(s: Spec) {
    exists path :: IsRedisAt(s, path)
  }

  ghost predicate IsRedisAt(s: Spec, path: seq<nat>) {
    At(s, path).Some? && At(s, path).value.Redis?
  }

  lemma RewriteKeepsRedis(s: Spec, to: Paths)
    ensures HasRedis(Rewrite(s, to)) <==> HasRedis(s)
  {
    forall path ensures IsRedisAt(Rewrite(s, to), path) <==> IsRedisAt(s, path) { RedisAtStays(s, to, path); }
  }

  lemma RedisAtStays(s: Spec, to: Paths, path: seq<nat>)
    ensures IsRedisAt(Rewrite(s, to), path) <==> IsRedisAt(s, path)
  {
    RewriteEverywhere(s, to, path);
    if At(s, path).Some? {
      OwnKeepsKind(At(s, path).value);
      OwnKeepsKind(At(Rewrite(s, to), path).value);
    }
  }

  lemma OwnKeepsKind(s: Spec)
    ensures Own(s).Redis? <==> s.Redis?
  {
  }

  /** After the overrides a store still dials Redis exactly when it has a Redis node and is not one
      of the stores replaced by name. */
  lemma RedisRemainsIff(c: StoreConfig, to: Paths)
    ensures HasRedis(Override(c, to).spec) <==> c.name !in {"REDIS_AC_STORE", "REDIS_CAS_SMALL_STORE"} && HasRedis(c.spec)
  {
    RewriteKeepsRedis(c.spec, to);
    forall path ensures !IsRedisAt(BENCH_MEMORY, path) {
      assert Children(BENCH_MEMORY) == [];
    }
  }

  // ----- searching -----

  function OrElse(a: Option<nat>, b: Option<nat>): Option<nat> {
    if a.Some? then a else b
  }

  function Find(s: Spec): Option<nat>
    decreases s
  {
    match s
    case SizePartitioning(size, _, _) => Some(size)
    case Verify(backend, _) => Find(backend)
    case ExistenceCache(backend, _) => Find(backend)
    case FastSlow(fast, slow, _) => OrElse(Find(fast), Find(slow))
    case Compression(backend, _) => Find(backend)
    case Dedup(index, content, _) => OrElse(Find(index), Find(content))
    case CompletenessChecking(backend, cas) => OrElse(Find(backend), Find(cas))
    case Sharded(stores) => FindShards(stores)
    case _ => None
  }

  function FindShards(stores: seq<Shard>): Option<nat>
    decreases stores
  {
    if stores == [] then None else OrElse(FindShard(stores[0]), FindShards(stores[1..]))
  }

  function FindShard(s: Shard): Option<nat>
    decreases s
  {
    Find(s.store)
  }

  /** The nodes in preorder, with nothing below a CacheMetrics node. */
  function Visible(s: Spec): seq<Spec>
    decreases s, 1
  {
    [s] +
    match s
    case FastSlow(a, b, _) => Visible(a) + Visible(b)
    case Verify(a, _) => Visible(a)
    case ExistenceCache(a, _) => Visible(a)
    case SizePartitioning(_, a, b) => Visible(a) + Visible(b)
    case Compression(a, _) => Visible(a)
    case CacheMetrics(_, _) => []
    case Dedup(a, b, _) => Visible(a) + Visible(b)
    case CompletenessChecking(a, b) => Visible(a) + Visible(b)
    case Sharded(stores) => VisibleShards(stores)
    case _ => []
  }

  function VisibleShards(stores: seq<Shard>): seq<Spec>
    decreases stores, 0
  {
    if stores == [] then [] else VisibleShard(stores[0]) + VisibleShards(stores[1..])
  }

  function VisibleShard(s: Shard): seq<Spec>
    decreases s, 2
  {
    Visible(s.store)
  }

  /** The size of the first SizePartitioning node of a list. */
  function FirstSize(nodes: seq<Spec>): Option<nat> {
    if nodes == [] then None
    else if nodes[0].SizePartitioning? then Some(nodes[0].size)
    else FirstSize(nodes[1..])
  }

  lemma {:induction false} FirstSizeConcat(a: seq<Spec>, b: seq<Spec>)
    ensures FirstSize(a + b) == OrElse(FirstSize(a), FirstSize(b))
  {
    if a == [] {
      assert a + b == b;
    } else {
      assert (a + b)[1..] == a[1..] + b;
      FirstSizeConcat(a[1..], b);
    }
  }

  lemma FirstSizeBelow(s: Spec, below: seq<Spec>)
    ensures FirstSize([s] + below) == if s.SizePartitioning? then Some(s.size) else FirstSize(below)
  {
    assert ([s] + below)[1..] == below;
  }

  lemma {:induction false} FindTwo(s: Spec, a: Spec, b: Spec)
    requires a < s && b < s
    ensures FirstSize([s] + (Visible(a) + Visible(b))) == if s.SizePartitioning? then Some(s.size) else OrElse(Find(a), Find(b))
    decreases s, 0
  {
    FindIsFirstVisible(a);
    FindIsFirstVisible(b);
    FirstSizeConcat(Visible(a), Visible(b));
    FirstSizeBelow(s, Visible(a) + Visible(b));
  }

  lemma {:induction false} FindOne(s: Spec, a: Spec)
    requires a < s
    ensures FirstSize([s] + Visible(a)) == if s.SizePartitioning? then Some(s.size) else Find(a)
    decreases s, 0
  {
    FindIsFirstVisible(a);
    FirstSizeBelow(s, Visible(a));
  }

  /** The search returns the first SizePartitioning in preorder that is not below a CacheMetrics. */
  lemma {:induction false} FindIsFirstVisible(s: Spec)
    ensures Find(s) == FirstSize(Visible(s))
    decreases s, 1
  {
    match s
    case FastSlow(a, b, _) => FindTwo(s, a, b);
    case Verify(a, _) => FindOne(s, a);
    case ExistenceCache(a, _) => FindOne(s, a);
    case SizePartitioning(_, a, b) => FindTwo(s, a, b);
    case Compression(a, _) => FindOne(s, a);
    case Dedup(a, b, _) => FindTwo(s, a, b);
    case CompletenessChecking(a, b) => FindTwo(s, a, b);
    case Sharded(stores) =>
      FindIsFirstVisibleShard(stores);
      FirstSizeBelow(s, VisibleShards(stores));
    case _ => FirstSizeBelow(s, []);
  }

  lemma {:induction false} FindIsFirstVisibleShard(stores: seq<Shard>)
    ensures FindShards(stores) == FirstSize(VisibleShards(stores))
    decreases stores, 0
  {
    if stores != [] {
      FindInShard(stores[0]);
      FindIsFirstVisibleShard(stores[1..]);
      FirstSizeConcat(VisibleShard(stores[0]), VisibleShards(stores[1..]));
    }
  }

  lemma {:induction false} FindInShard(s: Shard)
    ensures FindShard(s) == FirstSize(VisibleShard(s))
    decreases s, 2
  {
    FindIsFirstVisible(s.store);
  }

  /** No node on the way to `path` is a CacheMetrics. */
  ghost predicate Uncovered(s: Spec, path: seq<nat>) {
    forall k :: 0 <= k < |path| && At(s, path[..k]).Some? ==> !At(s, path[..k]).value.CacheMetrics?
  }

  ghost predicate FoundAt(s: Spec, path: seq<nat>) {
    At(s, path).Some? && At(s, path).value.SizePartitioning? && Uncovered(s, path)
  }

  lemma {:induction false} ShardFound(stores: seq<Shard>, i: nat)
    requires i < |stores| && Find(stores[i].store).Some?
    ensures FindShards(stores).Some?
  {
    if i > 0 { ShardFound(stores[1..], i - 1); }
  }

  lemma {:induction false} FoundShard(stores: seq<Shard>) returns (i: nat)
    requires FindShards(stores).Some?
    ensures i < |stores| && Find(stores[i].store).Some?
  {
    if FindShard(stores[0]).Some? {
      i := 0;
    } else {
      i := FoundShard(stores[1..]);
      i := i + 1;
    }
  }

  lemma FoundBelow(s: Spec, i: nat)
    requires !s.CacheMetrics? && i < |Children(s)| && Find(Children(s)[i]).Some?
    ensures Find(s).Some?
  {
    if s.Sharded? { ShardFound(s.stores, i); }
  }

  lemma BelowFound(s: Spec) returns (i: nat)
    requires Find(s).Some? && !s.SizePartitioning?
    ensures !s.CacheMetrics? && i < |Children(s)| && Find(Children(s)[i]).Some? && Children(s)[i] < s
  {
    if s.Sharded? {
      i := FoundShard(s.stores);
      assert s.stores[i] < s && s.stores[i].store < s.stores[i];
    } else {
      i := if Find(Children(s)[0]).Some? then 0 else 1;
    }
  }

  lemma UncoveredBelow(s: Spec, path: seq<nat>)
    requires path != [] && path[0] < |Children(s)|
    ensures Uncovered(s, path) <==> !s.CacheMetrics? && Uncovered(Children(s)[path[0]], path[1..])
  {
    var child, rest := Children(s)[path[0]], path[1..];
    forall k | 0 < k < |path| ensures At(s, path[..k]) == At(child, rest[..k - 1]) {
      assert path[..k][1..] == rest[..k - 1];
    }
    assert path[..0] == [] && At(s, path[..0]) == Some(s);
    if Uncovered(s, path) {
      forall k | 0 <= k < |rest| && At(child, rest[..k]).Some? ensures !At(child, rest[..k]).value.CacheMetrics? {
        assert At(s, path[..k + 1]) == At(child, rest[..k]);
      }
    }
  }

  lemma {:induction false} FoundIsFound(s: Spec, path: seq<nat>)
    requires FoundAt(s, path)
    ensures Find(s).Some?
    decreases |path|
  {
    if path != [] {
      UncoveredBelow(s, path);
      FoundIsFound(Children(s)[path[0]], path[1..]);
      FoundBelow(s, path[0]);
    }
  }

  lemma {:induction false} WhereFound(s: Spec) returns (path: seq<nat>)
    requires Find(s).Some?
    ensures FoundAt(s, path)
    decreases s
  {
    if s.SizePartitioning? {
      path := [];
    } else {
      var i := BelowFound(s);
      var rest := WhereFound(Children(s)[i]);
      path := [i] + rest;
      assert path[1..] == rest;
      UncoveredBelow(s, path);
    }
  }

  /** A threshold is found if and only if some SizePartitioning lies below no CacheMetrics; the
      rewrite knows no such limit. */
  lemma FoundIffUncovered(s: Spec)
    ensures Find(s).Some? <==> exists path :: FoundAt(s, path)
  {
    if Find(s).Some? { var path := WhereFound(s); }
    if path :| FoundAt(s, path) { FoundIsFound(s, path); }
  }

  /** The rewrite does not touch what is searched for. */
  lemma {:induction false} RewriteKeepsFind(s: Spec, to: Paths)
    ensures Find(Rewrite(s, to)) == Find(s)
    decreases s
  {
    match s
    case FastSlow(a, b, _) => RewriteKeepsFind(a, to); RewriteKeepsFind(b, to);
    case Verify(a, _) => RewriteKeepsFind(a, to);
    case ExistenceCache(a, _) => RewriteKeepsFind(a, to);
    case Compression(a, _) => RewriteKeepsFind(a, to);
    case Dedup(a, b, _) => RewriteKeepsFind(a, to); RewriteKeepsFind(b, to);
    case CompletenessChecking(a, b) => RewriteKeepsFind(a, to); RewriteKeepsFind(b, to);
    case Sharded(stores) => RewriteKeepsFindShards(stores, to);
    case _ =>
  }

  lemma {:induction false} RewriteKeepsFindShards(stores: seq<Shard>, to: Paths)
    ensures FindShards(RewriteShards(stores, to)) == FindShards(stores)
    decreases stores
  {
    if stores != [] {
      RewriteKeepsFindShard(stores[0], to);
      RewriteKeepsFindShards(stores[1..], to);
      assert RewriteShards(stores, to)[1..] == RewriteShards(stores[1..], to);
    }
  }

  lemma {:induction false} RewriteKeepsFindShard(s: Shard, to: Paths)
    ensures FindShard(RewriteShard(s, to)) == FindShard(s)
    decreases s
  {
    RewriteKeepsFind(s.store, to);
  }

  /** The first threshold found in any store. */
  function Extract(cs: seq<StoreConfig>): Option<nat> {
    if cs == [] then None else OrElse(Find(cs[0].spec), Extract(cs[1..]))
  }

  /** The nodes that the search can see, store after store, each store in preorder. */
  function AllVisible(cs: seq<StoreConfig>): seq<Spec> {
    if cs == [] then [] else Visible(cs[0].spec) + AllVisible(cs[1..])
  }

  lemma {:induction false} ExtractIsFirstVisible(cs: seq<StoreConfig>)
    ensures Extract(cs) == FirstSize(AllVisible(cs))
  {
    if cs != [] {
      FindIsFirstVisible(cs[0].spec);
      ExtractIsFirstVisible(cs[1..]);
      FirstSizeConcat(Visible(cs[0].spec), AllVisible(cs[1..]));
    }
  }

  /** The result is the size of the first SizePartitioning node that can be seen in any store. */
  method ExtractSizePartitioningThreshold(stores: array<StoreConfig>) returns (r: Option<nat>)
    ensures r == FirstSize(AllVisible(stores[..]))
  {
    ExtractIsFirstVisible(stores[..]);
    assert stores[0..] == stores[..];
    for i := 0 to stores.Length
      invariant Extract(stores[..]) == Extract(stores[i..])
    {
      var t := Find(stores[i].spec);
      assert stores[i..][1..] == stores[i + 1..];
      if t.Some? { return t; }
    }
    r := None;
  }

  /** The stores that the overrides keep. */
  function Kept(cs: seq<StoreConfig>): seq<StoreConfig> {
    if cs == [] then []
    else if cs[0].name in REDIS_STORE_NAMES then Kept(cs[1..])
    else [cs[0]] + Kept(cs[1..])
  }

  /** After the overrides the threshold is the first one among the stores not replaced by name. */
  lemma {:induction false} OverridesKeepThreshold(cs: seq<StoreConfig>, to: Paths)
    ensures Extract(OverrideAll(cs, to)) == Extract(Kept(cs))
  {
    if cs != [] {
      assert OverrideAll(cs, to)[1..] == OverrideAll(cs[1..], to);
      OverridesKeepThreshold(cs[1..], to);
      RewriteKeepsFind(cs[0].spec, to);
      if cs[0].name !in REDIS_STORE_NAMES { assert ([cs[0]] + Kept(cs[1..]))[1..] == Kept(cs[1..]); }
    }
  }
}

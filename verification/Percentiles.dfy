/**
Nearest-rank percentiles of benchmark latencies, benchmarks/src/output.rs. Durations are whole
nanoseconds; milliseconds are exact rationals.
*/
module Percentiles {

  type Nanos = nat

  // ----- sorting -----

  ghost predicate IsSorted(s: seq<Nanos>) {
    forall i, j :: 0 <= i < j < |s| ==> s[i] <= s[j]
  }

  function Insert(x: Nanos, s: seq<Nanos>): seq<Nanos> {
    if s == [] || x <= s[0] then [x] + s else [s[0]] + Insert(x, s[1..])
  }

  /** The samples in ascending order. */
  function Sorted(s: seq<Nanos>): seq<Nanos> {
    if s == [] then [] else Insert(s[0], Sorted(s[1..]))
  }

  lemma {:induction false} InsertAdds(x: Nanos, s: seq<Nanos>)
    ensures multiset(Insert(x, s)) == multiset{x} + multiset(s)
  {
    if s != [] && x > s[0] {
      InsertAdds(x, s[1..]);
      assert s == [s[0]] + s[1..];
    }
  }

  lemma {:induction false} InsertBounds(x: Nanos, s: seq<Nanos>, low: Nanos)
    requires low <= x && forall i :: 0 <= i < |s| ==> low <= s[i]
    ensures forall i :: 0 <= i < |Insert(x, s)| ==> low <= Insert(x, s)[i]
  {
    if s != [] && x > s[0] { InsertBounds(x, s[1..], low); }
  }

  lemma SortedCons(x: Nanos, s: seq<Nanos>)
    requires IsSorted(s) && forall i :: 0 <= i < |s| ==> x <= s[i]
    ensures IsSorted([x] + s)
  {
  }

  lemma {:induction false} InsertSorts(x: Nanos, s: seq<Nanos>)
    requires IsSorted(s)
    ensures IsSorted(Insert(x, s))
  {
    if s != [] && x > s[0] {
      InsertSorts(x, s[1..]);
      InsertBounds(x, s[1..], s[0]);
      SortedCons(s[0], Insert(x, s[1..]));
    } else {
      SortedCons(x, s);
    }
  }

  lemma {:induction false} SortedSorts(s: seq<Nanos>)
    ensures IsSorted(Sorted(s)) && multiset(Sorted(s)) == multiset(s) && |Sorted(s)| == |s|
  {
    if s != [] {
      assert s == [s[0]] + s[1..];
      SortedSorts(s[1..]);
      InsertSorts(s[0], Sorted(s[1..]));
      InsertAdds(s[0], Sorted(s[1..]));
    }
    assert |multiset(Sorted(s))| == |multiset(s)|;
  }

  /** There is only one way to sort. */
  lemma {:induction false} SortedIsUnique(a: seq<Nanos>, b: seq<Nanos>)
    requires IsSorted(a) && IsSorted(b) && multiset(a) == multiset(b)
    ensures a == b
  {
    assert |a| == |multiset(a)| == |multiset(b)| == |b|;
    if a != [] {
      FirstIsLeast(a, b);
      FirstIsLeast(b, a);
      TailElements(a);
      TailElements(b);
      SortedIsUnique(a[1..], b[1..]);
      assert a == [a[0]] + a[1..] && b == [b[0]] + b[1..];
    }
  }

  lemma FirstIsLeast(a: seq<Nanos>, b: seq<Nanos>)
    requires IsSorted(a) && a != [] && b != [] && multiset(a) == multiset(b)
    ensures a[0] <= b[0]
  {
    assert b[0] in multiset(a);
    var i :| 0 <= i < |a| && a[i] == b[0];
  }

  lemma TailElements(a: seq<Nanos>)
    requires a != []
    ensures multiset(a[1..]) == multiset(a) - multiset{a[0]}
  {
    assert a == [a[0]] + a[1..];
  }

  method SortInPlace(samples: array<Nanos>)
    modifies samples
    ensures samples[..] == Sorted(old(samples[..]))
  {
    var t := Sorted(samples[..]);
    SortedSorts(samples[..]);
    forall i | 0 <= i < samples.Length {
      samples[i] := t[i];
    }
  }

  // ----- nearest rank -----

  /** The index of the percentile `num / den` among `n` samples: ceil(p * n) - 1, kept in range. */
  function RankIndex(num: nat, den: nat, n: nat): (i: nat)
    requires den > 0 && n > 0
    ensures i < n
  {
    var ceil := (num * n + den - 1) / den;
    var i := if ceil == 0 then 0 else ceil - 1;
    if i < n - 1 then i else n - 1
  }

  lemma CeilBounds(a: nat, den: nat)
    requires den > 0 && a > 0
    ensures var c := (a + den - 1) / den; den * c >= a && den * (c - 1) < a && c >= 1
  {
    var c := (a + den - 1) / den;
    assert a + den - 1 == den * c + (a + den - 1) % den;
    assert den * (c - 1) == den * c - den;
  }

  lemma MulMono(d: nat, x: int, y: int)
    requires x <= y
    ensures d * x <= d * y
  {
  }

  /** For a proper fraction the index is the smallest with at least `p * n` samples up to it. */
  lemma RankBounds(num: nat, den: nat, n: nat)
    requires 0 < num < den && n > 0
    ensures var i := RankIndex(num, den, n); den * (i + 1) >= num * n && den * i < num * n
  {
    var a := num * n;
    assert a > 0 by { MulMono(num, 1, n); }
    CeilBounds(a, den);
    var c := (a + den - 1) / den;
    if c > n {
      MulMono(den, n, c - 1);
      MulMono(n, num, den);
    }
  }

  function CountLe(s: seq<Nanos>, v: Nanos): nat {
    if s == [] then 0 else (if s[0] <= v then 1 else 0) + CountLe(s[1..], v)
  }

  function CountLt(s: seq<Nanos>, v: Nanos): nat {
    if s == [] then 0 else (if s[0] < v then 1 else 0) + CountLt(s[1..], v)
  }

  lemma {:induction false} CountInsert(x: Nanos, s: seq<Nanos>, v: Nanos)
    ensures CountLe(Insert(x, s), v) == (if x <= v then 1 else 0) + CountLe(s, v)
    ensures CountLt(Insert(x, s), v) == (if x < v then 1 else 0) + CountLt(s, v)
  {
    if s != [] && x > s[0] {
      CountInsert(x, s[1..], v);
    } else {
      assert ([x] + s)[1..] == s;
    }
  }

  lemma {:induction false} CountSorted(s: seq<Nanos>, v: Nanos)
    ensures CountLe(Sorted(s), v) == CountLe(s, v) && CountLt(Sorted(s), v) == CountLt(s, v)
  {
    if s != [] {
      CountSorted(s[1..], v);
      CountInsert(s[0], Sorted(s[1..]), v);
    }
  }

  lemma {:induction false} CountInOrder(t: seq<Nanos>, i: nat, v: Nanos)
    requires IsSorted(t) && i < |t| && t[i] == v
    ensures CountLe(t, v) >= i + 1 && CountLt(t, v) <= i
  {
    if i > 0 {
      CountInOrder(t[1..], i - 1, v);
    } else {
      NoneBelow(t, v);
    }
  }

  lemma {:induction false} NoneBelow(t: seq<Nanos>, v: Nanos)
    requires forall k :: 0 <= k < |t| ==> v <= t[k]
    ensures CountLt(t, v) == 0
  {
    if t != [] { NoneBelow(t[1..], v); }
  }

  function Percentile(s: seq<Nanos>, num: nat, den: nat): Nanos
    requires s != [] && den > 0
  {
    SortedSorts(s);
    Sorted(s)[RankIndex(num, den, |s|)]
  }

  /** The percentile is a sample with at least `p * n` samples up to it and fewer than `p * n` below. */
  lemma PercentileIsNearestRank(s: seq<Nanos>, num: nat, den: nat)
    requires s != [] && 0 < num < den
    ensures
      var v := Percentile(s, num, den);
      v in s && den * CountLe(s, v) >= num * |s| && den * CountLt(s, v) < num * |s|
  {
    SortedSorts(s);
    var t, i := Sorted(s), RankIndex(num, den, |s|);
    var v := t[i];
    assert v in multiset(t);
    CountInOrder(t, i, v);
    CountSorted(s, v);
    EnoughUpTo(num, den, |s|, CountLe(s, v), CountLt(s, v));
  }

  lemma EnoughUpTo(num: nat, den: nat, n: nat, upTo: nat, below: nat)
    requires 0 < num < den && n > 0 && below <= RankIndex(num, den, n) < upTo
    ensures den * upTo >= num * n && den * below < num * n
  {
    var i := RankIndex(num, den, n);
    RankBounds(num, den, n);
    MulMono(den, i + 1, upTo);
    MulMono(den, below, i);
  }

  /** The order in which the samples were taken does not matter. */
  lemma PercentileIgnoresOrder(a: seq<Nanos>, b: seq<Nanos>, num: nat, den: nat)
    requires a != [] && b != [] && den > 0 && multiset(a) == multiset(b)
    ensures Percentile(a, num, den) == Percentile(b, num, den)
  {
    SortedSorts(a);
    SortedSorts(b);
    SortedIsUnique(Sorted(a), Sorted(b));
  }

  lemma RankIsMonotone(p: nat, q: nat, den: nat, n: nat)
    requires p <= q && den > 0 && n > 0
    ensures RankIndex(p, den, n) <= RankIndex(q, den, n)
  {
    MulMono(n, p, q);
    DivMono(p * n + den - 1, q * n + den - 1, den);
  }

  lemma DivMono(a: nat, b: nat, d: nat)
    requires a <= b && d > 0
    ensures a / d <= b / d
  {
    if a / d > b / d { MulMono(d, b / d + 1, a / d); }
  }

  // ----- emitting -----

  function Millis(v: Nanos): real {
    v as real / 1_000_000.0
  }

  /** Rust's `f64::round` for values that are not negative: half way goes up. */
  function Round(x: real): int
    requires x >= 0.0
  {
    (x + 0.5).Floor
  }

  function RoundEmit(x: real): real
    requires x >= 0.0
  {
    Round(x * 1_000_000.0) as real / 1_000_000.0
  }

  /** The nearest multiple of a millionth; half way goes up. */
  lemma RoundEmitIsNearest(x: real)
    requires x >= 0.0
    ensures
      var k := Round(x * 1_000_000.0);
      && RoundEmit(x) * 1_000_000.0 == k as real
      && -0.5 < k as real - x * 1_000_000.0 <= 0.5
  {
  }

  /** Rounding to six decimals of a millisecond loses nothing of a whole number of nanoseconds. */
  lemma RoundEmitIsExact(v: Nanos)
    ensures RoundEmit(Millis(v)) == Millis(v)
  {
    assert Millis(v) * 1_000_000.0 == v as real;
    assert (v as real + 0.5).Floor == v;
  }

  lemma RoundEmitIsMonotone(x: real, y: real)
    requires 0.0 <= x <= y
    ensures RoundEmit(x) <= RoundEmit(y)
  {
    var a, b := Round(x * 1_000_000.0), Round(y * 1_000_000.0);
    assert a <= b;
    Scale(a as real, b as real);
  }

  lemma Scale(a: real, b: real)
    requires a <= b
    ensures a / 1_000_000.0 <= b / 1_000_000.0
  {
  }

  datatype LatencyPercentiles = LatencyPercentiles(p50: real, p90: real, p99: real, max: real)

  method FromSamples(samples: array<Nanos>) returns (r: LatencyPercentiles)
    requires samples.Length > 0
    modifies samples
    ensures samples[..] == Sorted(old(samples[..]))
    ensures old(samples[..]) != []
    ensures r.p50 == Millis(Percentile(old(samples[..]), 50, 100))
    ensures r.p90 == Millis(Percentile(old(samples[..]), 90, 100))
    ensures r.p99 == Millis(Percentile(old(samples[..]), 99, 100))
    ensures forall i :: 0 <= i < samples.Length ==> Millis(old(samples[i])) <= r.max
    ensures exists i :: 0 <= i < samples.Length && r.max == Millis(old(samples[i]))
    ensures r.p50 <= r.p90 <= r.p99 <= r.max
  {
    ghost var was := samples[..];
    SortedSorts(was);
    SortInPlace(samples);
    var n := samples.Length;
    var p50, p90 := samples[RankIndex(50, 100, n)], samples[RankIndex(90, 100, n)];
    var p99, last := samples[RankIndex(99, 100, n)], samples[n - 1];
    PercentilesAreOrdered(was);
    LastIsMax(was);
    r := LatencyPercentiles(Emit(p50), Emit(p90), Emit(p99), Emit(last));
    MillisIsMonotone(p50, p90);
    MillisIsMonotone(p90, p99);
    MillisIsMonotone(p99, last);
    forall i | 0 <= i < n ensures Millis(was[i]) <= r.max { MillisIsMonotone(was[i], last); }
    assert exists i :: 0 <= i < n && was[i] == last;
  }

  function Emit(v: Nanos): (x: real)
    ensures x == Millis(v)
  {
    RoundEmitIsExact(v);
    RoundEmit(Millis(v))
  }

  lemma MillisIsMonotone(v: Nanos, w: Nanos)
    requires v <= w
    ensures Millis(v) <= Millis(w)
  {
    Scale(v as real, w as real);
  }

  lemma PercentilesAreOrdered(s: seq<Nanos>)
    requires s != []
    ensures |Sorted(s)| == |s|
    ensures Percentile(s, 50, 100) <= Percentile(s, 90, 100) <= Percentile(s, 99, 100) <= Sorted(s)[|s| - 1]
  {
    SortedSorts(s);
    var t, n := Sorted(s), |s|;
    RankIsMonotone(50, 90, 100, n);
    RankIsMonotone(90, 99, 100, n);
    InOrder(t, RankIndex(50, 100, n), RankIndex(90, 100, n));
    InOrder(t, RankIndex(90, 100, n), RankIndex(99, 100, n));
    InOrder(t, RankIndex(99, 100, n), n - 1);
  }

  lemma InOrder(t: seq<Nanos>, i: nat, j: nat)
    requires IsSorted(t) && i <= j < |t|
    ensures t[i] <= t[j]
  {
  }

  lemma LastIsMax(s: seq<Nanos>)
    requires s != []
    ensures |Sorted(s)| == |s| && Sorted(s)[|s| - 1] in s
    ensures forall i :: 0 <= i < |s| ==> s[i] <= Sorted(s)[|s| - 1]
  {
    SortedSorts(s);
    var t := Sorted(s);
    assert t[|s| - 1] in multiset(t);
    forall i | 0 <= i < |s| ensures s[i] <= t[|s| - 1] {
      assert s[i] in multiset(s);
      var j :| 0 <= j < |t| && t[j] == s[i];
      InOrder(t, j, |s| - 1);
    }
  }

  // ----- confidence -----

  datatype Confidence = Low | Medium | High

  function ConfidenceForIters(iters: nat): Confidence {
    if iters >= 100 then High else if iters >= 20 then Medium else Low
  }

  /** High confidence means exactly that some sample lies above the one taken for p99; below
      20 samples even p95 would be the last one. */
  lemma HighIffHeadroom(n: nat)
    requires n > 0
    ensures ConfidenceForIters(n) == High <==> RankIndex(99, 100, n) < n - 1
    ensures ConfidenceForIters(n) == Low <==> RankIndex(95, 100, n) == n - 1
  {
  }
}

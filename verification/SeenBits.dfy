/**
The bitset of seen sequence numbers of nativelink-service/src/blobs_available_accumulator.rs: two
machine words of `w` bits (128 there), bit `i` of the low word for sequence `i`, bit `i` of the
high word for sequence `w + i`. A word is the natural number with those binary digits.
*/
module SeenBits {

  /** `1 << n` */
  function Pow2(n: nat): nat {
    if n == 0 then 1 else 2 * Pow2(n - 1)
  }

  /** The `n`-bit word with bit `i` set exactly when `base + i` is in the set. */
  function Word(seen: set<nat>, base: nat, n: nat): nat
    decreases n
  {
    if n == 0 then 0 else (if base in seen then 1 else 0) + 2 * Word(seen, base + 1, n - 1)
  }

  /** `x & (1 << i) != 0` */
  predicate BitTest(x: nat, i: nat) {
    if i == 0 then x % 2 == 1 else BitTest(x / 2, i - 1)
  }

  /** `x | (1 << i)` */
  function BitSet(x: nat, i: nat): nat {
    if BitTest(x, i) then x else x + Pow2(i)
  }

  /** Testing a bit of the word is testing membership. */
  lemma {:induction false} WordTest(seen: set<nat>, base: nat, n: nat, i: nat)
    requires i < n
    ensures BitTest(Word(seen, base, n), i) <==> base + i in seen
    decreases n
  {
    var bit, rest := if base in seen then 1 else 0, Word(seen, base + 1, n - 1);
    LowBit(bit, rest);
    if i > 0 {
      WordTest(seen, base + 1, n - 1, i - 1);
      assert base + 1 + (i - 1) == base + i;
    }
  }

  lemma LowBit(bit: nat, rest: nat)
    requires bit < 2
    ensures (bit + 2 * rest) % 2 == bit && (bit + 2 * rest) / 2 == rest
  {
  }

  /** A number outside the word's range leaves the word alone. */
  lemma {:induction false} WordIgnores(seen: set<nat>, base: nat, n: nat, q: nat)
    requires q < base || base + n <= q
    ensures Word(seen + {q}, base, n) == Word(seen, base, n)
    decreases n
  {
    if n > 0 { WordIgnores(seen, base + 1, n - 1, q); }
  }

  /** Setting a bit of the word is adding to the set. */
  lemma WordSet(seen: set<nat>, base: nat, n: nat, i: nat)
    requires i < n
    ensures Word(seen + {base + i}, base, n) == BitSet(Word(seen, base, n), i)
  {
    WordTest(seen, base, n, i);
    if base + i in seen {
      assert seen + {base + i} == seen;
    } else {
      WordAdd(seen, base, n, i);
    }
  }

  lemma {:induction false} WordAdd(seen: set<nat>, base: nat, n: nat, i: nat)
    requires i < n && base + i !in seen
    ensures Word(seen + {base + i}, base, n) == Word(seen, base, n) + Pow2(i)
    decreases n
  {
    if i == 0 {
      WordIgnores(seen, base + 1, n - 1, base);
    } else {
      WordAdd(seen, base + 1, n - 1, i - 1);
    }
  }

  /** The word is `2^k - 1` exactly when its first `k` bits, and no others, are set. */
  lemma {:induction false} WordIsRun(seen: set<nat>, base: nat, n: nat, k: nat)
    requires k <= n
    ensures Word(seen, base, n) == Pow2(k) - 1 <==> (forall q :: base <= q < base + n ==> (q in seen <==> q < base + k))
    decreases n
  {
    if n > 0 {
      WordIsRun(seen, base + 1, n - 1, if k == 0 then 0 else k - 1);
      assert (forall q :: base <= q < base + n ==> (q in seen <==> q < base + k)) <==>
        && (base in seen <==> base < base + k)
        && (forall q :: base + 1 <= q < base + n ==> (q in seen <==> q < base + k));
    }
  }

  /** The completeness gate on the two words: the numbers seen are exactly 0 to `count - 1`. */
  lemma WordsAreContiguous(seen: set<nat>, w: nat, count: nat)
    requires 0 < count <= 2 * w
    ensures
      var lo, hi := Word(seen, 0, w), Word(seen, w, w);
      var gate := if count <= w then lo == Pow2(count) - 1 && hi == 0
                  else lo == Pow2(w) - 1 && hi == Pow2(count - w) - 1;
      gate <==> (forall q :: 0 <= q < 2 * w ==> (q in seen <==> q < count))
  {
    if count <= w {
      WordIsRun(seen, 0, w, count);
      WordIsRun(seen, w, w, 0);
    } else {
      WordIsRun(seen, 0, w, w);
      WordIsRun(seen, w, w, count - w);
    }
    assert (forall q :: 0 <= q < 2 * w ==> (q in seen <==> q < count)) <==>
      && (forall q :: 0 <= q < w ==> (q in seen <==> q < count))
      && (forall q :: w <= q < w + w ==> (q in seen <==> q < count));
  }
}

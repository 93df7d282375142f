/**
The check that no instance uses one store for both CAS and AC, nativelink-config/src/cas_server.rs,
and the conversion of the old map format that feeds it, nativelink-config/src/backcompat.rs.
*/
module StoreConflict {
  import opened Options

  datatype Entry = Entry(instance: string, store: string)

  datatype Services = Services(cas: Option<seq<Entry>>, ac: Option<seq<Entry>>)

  /** The store of the last entry for an instance. */
  function LastStore(cas: seq<Entry>, instance: string): Option<string> {
    if cas == [] then None
    else if cas[|cas| - 1].instance == instance then Some(cas[|cas| - 1].store)
    else LastStore(cas[..|cas| - 1], instance)
  }

  /** Entry `i` is the last one for its instance. */
  ghost predicate LastFor(cas: seq<Entry>, i: nat) {
    i < |cas| && forall j :: i < j < |cas| ==> cas[j].instance != cas[i].instance
  }

  /** The AC entry uses the store that the last CAS entry of its instance uses. */
  ghost predicate Clashes(cas: seq<Entry>, e: Entry) {
    exists i: nat :: LastFor(cas, i) && cas[i] == e
  }

  ghost predicate HasEntry(cas: seq<Entry>, instance: string) {
    exists i :: 0 <= i < |cas| && cas[i].instance == instance
  }

  /** The store looked up for an instance is that of its last entry; there is one if it has an entry. */
  lemma LastStoreIsLast(cas: seq<Entry>, instance: string)
    ensures LastStore(cas, instance).Some? <==> HasEntry(cas, instance)
    ensures LastStore(cas, instance).Some? ==> Clashes(cas, Entry(instance, LastStore(cas, instance).value))
  {
    if LastStore(cas, instance).Some? { var i := FindLast(cas, instance); }
    if i :| 0 <= i < |cas| && cas[i].instance == instance { LastStoreIsSome(cas, i); }
  }

  lemma {:induction false} FindLast(cas: seq<Entry>, instance: string) returns (i: nat)
    requires LastStore(cas, instance).Some?
    ensures LastFor(cas, i) && cas[i] == Entry(instance, LastStore(cas, instance).value)
  {
    var n := |cas| - 1;
    if cas[n].instance == instance {
      i := n;
    } else {
      i := FindLast(cas[..n], instance);
      StillLast(cas, n, i);
    }
  }

  lemma StillLast(cas: seq<Entry>, n: nat, i: nat)
    requires n == |cas| - 1 && LastFor(cas[..n], i) && cas[n].instance != cas[i].instance
    ensures LastFor(cas, i)
  {
    forall j | i < j < |cas| ensures cas[j].instance != cas[i].instance { if j < n { assert cas[..n][j] == cas[j]; } }
  }

  lemma {:induction false} LastStoreIsSome(cas: seq<Entry>, i: nat)
    requires i < |cas|
    ensures LastStore(cas, cas[i].instance).Some?
  {
    if i < |cas| - 1 { LastStoreIsSome(cas[..|cas| - 1], i); }
  }

  lemma ClashesIff(cas: seq<Entry>, e: Entry)
    ensures Clashes(cas, e) <==> LastStore(cas, e.instance) == Some(e.store)
  {
    if LastStore(cas, e.instance) == Some(e.store) { var k := FindLast(cas, e.instance); }
    if Clashes(cas, e) {
      var i: nat :| LastFor(cas, i) && cas[i] == e;
      LastStoreIsSome(cas, i);
      var k := FindLast(cas, e.instance);
      assert i == k;
    }
  }

  ghost predicate Conflict(cas: seq<Entry>, ac: seq<Entry>) {
    exists j :: 0 <= j < |ac| && Clashes(cas, ac[j])
  }

  ghost predicate FirstClash(cas: seq<Entry>, ac: seq<Entry>, j: nat) {
    j < |ac| && Clashes(cas, ac[j]) && !Conflict(cas, ac[..j])
  }

  ghost predicate MapsTo(m: map<string, string>, cas: seq<Entry>) {
    forall k :: (k in m <==> LastStore(cas, k).Some?) && (k in m ==> LastStore(cas, k) == Some(m[k]))
  }

  /** Some(store) is the error, naming the store of the first clash. */
  method CheckStoreConflict(s: Services) returns (r: Option<string>)
    ensures s.cas.None? || s.ac.None? ==> r == None
    ensures s.cas.Some? && s.ac.Some? ==> (r.Some? <==> Conflict(s.cas.value, s.ac.value))
    ensures r.Some? ==> exists j :: 0 <= j < |s.ac.value| && FirstClash(s.cas.value, s.ac.value, j) && s.ac.value[j].store == r.value
  {
    if s.cas.None? || s.ac.None? { return None; }
    var cas, ac := s.cas.value, s.ac.value;
    var stores: map<string, string> := map[];
    for i := 0 to |cas|
      invariant MapsTo(stores, cas[..i])
    {
      assert cas[..i + 1][..i] == cas[..i];
      stores := stores[cas[i].instance := cas[i].store];
    }
    assert cas[..|cas|] == cas;
    for j := 0 to |ac|
      invariant !Conflict(cas, ac[..j])
    {
      ClashesIff(cas, ac[j]);
      if ac[j].instance in stores && stores[ac[j].instance] == ac[j].store {
        assert FirstClash(cas, ac, j);
        return Some(ac[j].store);
      }
      assert !Clashes(cas, ac[j]);
      NoneYet(cas, ac, j);
    }
    assert ac[..|ac|] == ac;
    r := None;
  }

  lemma NoneYet(cas: seq<Entry>, ac: seq<Entry>, j: nat)
    requires j < |ac| && !Conflict(cas, ac[..j]) && !Clashes(cas, ac[j])
    ensures !Conflict(cas, ac[..j + 1])
  {
    var now := ac[..j + 1];
    forall k | 0 <= k < |now| ensures !Clashes(cas, now[k]) {
      if k < j { assert now[k] == ac[..j][k]; }
    }
  }

  // ----- against the check of all pairs -----

  ghost predicate AnyPairClashes(cas: seq<Entry>, ac: seq<Entry>) {
    exists i, j :: 0 <= i < |cas| && 0 <= j < |ac| && cas[i] == ac[j]
  }

  /** CAS entries for one instance agree on its store. */
  ghost predicate Consistent(cas: seq<Entry>) {
    forall i, j :: 0 <= i < |cas| && 0 <= j < |cas| && cas[i].instance == cas[j].instance ==> cas[i].store == cas[j].store
  }

  lemma ConflictIsAPair(cas: seq<Entry>, ac: seq<Entry>)
    requires Conflict(cas, ac)
    ensures AnyPairClashes(cas, ac)
  {
    var j :| 0 <= j < |ac| && Clashes(cas, ac[j]);
    var i: nat :| LastFor(cas, i) && cas[i] == ac[j];
  }

  lemma PairIsConflict(cas: seq<Entry>, ac: seq<Entry>)
    requires Consistent(cas) && AnyPairClashes(cas, ac)
    ensures Conflict(cas, ac)
  {
    var i, j :| 0 <= i < |cas| && 0 <= j < |ac| && cas[i] == ac[j];
    LastStoreIsSome(cas, i);
    var k := FindLast(cas, cas[i].instance);
    assert cas[k].store == cas[i].store;
    assert Clashes(cas, ac[j]);
  }

  ghost predicate Sound(cas: seq<Entry>) {
    forall ac :: Conflict(cas, ac) <==> AnyPairClashes(cas, ac)
  }

  /** An entry that a later one overrides with another store is not looked at. */
  lemma OverriddenIsMissed(cas: seq<Entry>, i: nat)
    requires i < |cas| && LastStore(cas, cas[i].instance) != Some(cas[i].store)
    ensures !Conflict(cas, [cas[i]]) && AnyPairClashes(cas, [cas[i]])
  {
    assert [cas[i]][0] == cas[i];
    ClashesIff(cas, cas[i]);
  }

  /** The check finds exactly the clashing pairs, whatever the AC entries, if and only if CAS
      entries of one instance agree. */
  lemma SoundIffConsistent(cas: seq<Entry>)
    ensures Sound(cas) <==> Consistent(cas)
  {
    if Consistent(cas) {
      forall ac ensures Conflict(cas, ac) <==> AnyPairClashes(cas, ac) {
        if Conflict(cas, ac) { ConflictIsAPair(cas, ac); }
        if AnyPairClashes(cas, ac) { PairIsConflict(cas, ac); }
      }
    } else {
      var i, j :| 0 <= i < |cas| && 0 <= j < |cas| && cas[i].instance == cas[j].instance && cas[i].store != cas[j].store;
      var k := if LastStore(cas, cas[i].instance) != Some(cas[i].store) then i else j;
      OverriddenIsMissed(cas, k);
    }
  }

  // ----- the old map format -----

  ghost predicate IsOrder(order: seq<string>, keys: set<string>) {
    && (forall i, j :: 0 <= i < j < |order| ==> order[i] != order[j])
    && (forall k :: k in order <==> k in keys)
  }

  /** The entries of a map, in the order in which it is iterated. */
  function FromMap(m: map<string, string>, order: seq<string>): seq<Entry>
    requires forall i :: 0 <= i < |order| ==> order[i] in m
  {
    seq(|order|, i requires 0 <= i < |order| => Entry(order[i], m[order[i]]))
  }

  lemma ConvertedIsConsistent(m: map<string, string>, order: seq<string>)
    requires IsOrder(order, m.Keys)
    ensures forall i, j :: 0 <= i < j < |FromMap(m, order)| ==> FromMap(m, order)[i].instance != FromMap(m, order)[j].instance
    ensures Consistent(FromMap(m, order))
  {
  }

  /** On converted configurations the verdict is whether some instance has one store for both, in
      whatever order the maps are iterated. */
  lemma ConvertedVerdict(cas: map<string, string>, ac: map<string, string>, casOrder: seq<string>, acOrder: seq<string>)
    requires IsOrder(casOrder, cas.Keys) && IsOrder(acOrder, ac.Keys)
    ensures Conflict(FromMap(cas, casOrder), FromMap(ac, acOrder)) <==> exists k :: k in cas && k in ac && cas[k] == ac[k]
  {
    var c, a := FromMap(cas, casOrder), FromMap(ac, acOrder);
    ConvertedIsConsistent(cas, casOrder);
    if Conflict(c, a) {
      ConflictIsAPair(c, a);
      var i, j :| 0 <= i < |c| && 0 <= j < |a| && c[i] == a[j];
      assert casOrder[i] in cas && casOrder[i] in ac;
    }
    if k :| k in cas && k in ac && cas[k] == ac[k] {
      SharedStoreIsPair(cas, ac, casOrder, acOrder, k);
      PairIsConflict(c, a);
    }
  }

  lemma SharedStoreIsPair(cas: map<string, string>, ac: map<string, string>, casOrder: seq<string>, acOrder: seq<string>, k: string)
    requires IsOrder(casOrder, cas.Keys) && IsOrder(acOrder, ac.Keys)
    requires k in cas && k in ac && cas[k] == ac[k]
    ensures AnyPairClashes(FromMap(cas, casOrder), FromMap(ac, acOrder))
  {
    var i :| 0 <= i < |casOrder| && casOrder[i] == k;
    var j :| 0 <= j < |acOrder| && acOrder[j] == k;
    assert FromMap(cas, casOrder)[i] == FromMap(ac, acOrder)[j];
  }
}

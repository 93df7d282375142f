/**
The protobuf wire format, as far as the messages of nativelink-error/src/lib.rs need it: base-128
varints, length-delimited and fixed-width records, and folding the records of a message into its
fields with the last one winning.
*/
module ProtoWire {
  import opened Options
  import opened SeqLemmas

  type Byte = b: int | 0 <= b < 256
  type Bytes = seq<Byte>

  // ----- varints -----

  /** Values that fit when `k` of the ten bytes of a varint are already spent. */
  function Room(k: nat): nat
    requires k <= 9
    decreases 9 - k
  {
    if k == 9 then 2 else 128 * Room(k + 1)
  }

  const U64 := 0x1_0000_0000_0000_0000

  lemma RoomIsU64()
    ensures Room(0) == U64
  {
  }

  function EncodeVarint(n: nat): Bytes {
    if n < 128 then [n] else [n % 128 + 128] + EncodeVarint(n / 128)
  }

  /** Reads a varint of which `k` bytes are spent; at most ten bytes and 64 bits are allowed. */
  function DecodeVarint(bs: Bytes, k: nat): (r: Option<(nat, Bytes)>)
    ensures r.Some? ==> |r.value.1| < |bs|
  {
    if bs == [] || k >= 10 then None
    else if bs[0] < 128 then
      if k == 9 && bs[0] >= 2 then None else Some((bs[0], bs[1..]))
    else
      var r := DecodeVarint(bs[1..], k + 1);
      if r.None? then None else Some((bs[0] - 128 + 128 * r.value.0, r.value.1))
  }

  lemma {:induction false} DecodeEncodeVarint(n: nat, k: nat, rest: Bytes)
    requires k <= 9 && n < Room(k)
    ensures DecodeVarint(EncodeVarint(n) + rest, k) == Some((n, rest))
    decreases n
  {
    var bs := EncodeVarint(n) + rest;
    if n < 128 {
      assert bs[1..] == rest;
    } else {
      assert bs[1..] == EncodeVarint(n / 128) + rest;
      DecodeEncodeVarint(n / 128, k + 1, rest);
    }
  }

  /** The number that groups of seven bits stand for, the least significant group first. */
  function GroupsValue(bs: Bytes): nat {
    if bs == [] then 0 else bs[0] % 128 + 128 * GroupsValue(bs[1..])
  }

  /** The bytes of a varint: its groups of seven bits, as few as it takes, each but the last with the top
      bit set. */
  lemma {:induction false} VarintBytes(n: nat)
    ensures
      var bs := EncodeVarint(n);
      && bs != [] && GroupsValue(bs) == n
      && (forall i :: 0 <= i < |bs| ==> (bs[i] >= 128 <==> i < |bs| - 1))
      && (|bs| > 1 ==> bs[|bs| - 1] != 0)
  {
    var bs := EncodeVarint(n);
    if n < 128 {
      assert bs[1..] == [];
    } else {
      VarintBytes(n / 128);
      assert bs[1..] == EncodeVarint(n / 128);
    }
  }

  /** Whatever is read fits in 64 bits. */
  lemma {:induction false} VarintFits(bs: Bytes, k: nat)
    requires k <= 9 && DecodeVarint(bs, k).Some?
    ensures DecodeVarint(bs, k).value.0 < Room(k)
    decreases |bs|
  {
    if bs[0] >= 128 {
      if k < 9 { VarintFits(bs[1..], k + 1); }
    } else if k < 9 {
      RoomIsEnough(k);
    }
  }

  lemma {:induction false} RoomIsEnough(k: nat)
    requires k < 9
    ensures Room(k) >= 128
    decreases 9 - k
  {
    if k + 1 < 9 { RoomIsEnough(k + 1); }
  }

  /** Reading is not affected by what follows. */
  lemma {:induction false} VarintIgnoresRest(bs: Bytes, k: nat, more: Bytes)
    requires DecodeVarint(bs, k).Some?
    ensures DecodeVarint(bs + more, k) == Some((DecodeVarint(bs, k).value.0, DecodeVarint(bs, k).value.1 + more))
    decreases |bs|
  {
    assert (bs + more)[1..] == bs[1..] + more;
    if bs[0] >= 128 { VarintIgnoresRest(bs[1..], k + 1, more); }
  }

  // ----- records -----

  datatype Field =
    | Varint(num: nat, value: nat)
    | Fixed64(num: nat, bytes: Bytes)
    | Data(num: nat, bytes: Bytes)
    | Fixed32(num: nat, bytes: Bytes)

  const MAX_FIELD := 0x2000_0000

  /** A field number within 29 bits and a payload of the right size. */
  predicate Valid(f: Field) {
    && 1 <= f.num < MAX_FIELD
    && match f
       case Varint(_, value) => value < U64
       case Fixed64(_, bytes) => |bytes| == 8
       case Data(_, bytes) => |bytes| < U64
       case Fixed32(_, bytes) => |bytes| == 4
  }

  function WireType(f: Field): nat {
    match f
    case Varint(_, _) => 0
    case Fixed64(_, _) => 1
    case Data(_, _) => 2
    case Fixed32(_, _) => 5
  }

  function Payload(f: Field): Bytes {
    match f
    case Varint(_, value) => EncodeVarint(value)
    case Fixed64(_, bytes) => bytes
    case Data(_, bytes) => EncodeVarint(|bytes|) + bytes
    case Fixed32(_, bytes) => bytes
  }

  function EncodeField(f: Field): Bytes {
    EncodeVarint(f.num * 8 + WireType(f)) + Payload(f)
  }

  function Take(bs: Bytes, n: nat): Option<(Bytes, Bytes)> {
    if n <= |bs| then Some((bs[..n], bs[n..])) else None
  }

  function DecodePayload(num: nat, wire: nat, bs: Bytes): (r: Option<(Field, Bytes)>)
    ensures r.Some? ==> |r.value.1| <= |bs|
  {
    if wire == 0 then
      var v := DecodeVarint(bs, 0);
      if v.None? then None else Some((Varint(num, v.value.0), v.value.1))
    else if wire == 1 then
      var v := Take(bs, 8);
      if v.None? then None else Some((Fixed64(num, v.value.0), v.value.1))
    else if wire == 2 then
      var n := DecodeVarint(bs, 0);
      if n.None? then None
      else
        var v := Take(n.value.1, n.value.0);
        if v.None? then None else Some((Data(num, v.value.0), v.value.1))
    else if wire == 5 then
      var v := Take(bs, 4);
      if v.None? then None else Some((Fixed32(num, v.value.0), v.value.1))
    else None
  }

  function DecodeField(bs: Bytes): (r: Option<(Field, Bytes)>)
    ensures r.Some? ==> |r.value.1| < |bs|
  {
    var key := DecodeVarint(bs, 0);
    if key.None? || key.value.0 >= MAX_FIELD * 8 || key.value.0 < 8 then None
    else DecodePayload(key.value.0 / 8, key.value.0 % 8, key.value.1)
  }

  lemma TakeBack(bytes: Bytes, rest: Bytes)
    ensures Take(bytes + rest, |bytes|) == Some((bytes, rest))
  {
    assert (bytes + rest)[..|bytes|] == bytes && (bytes + rest)[|bytes|..] == rest;
  }

  lemma DecodeU64(n: nat, rest: Bytes)
    requires n < U64
    ensures DecodeVarint(EncodeVarint(n) + rest, 0) == Some((n, rest))
  {
    RoomIsU64();
    DecodeEncodeVarint(n, 0, rest);
  }

  lemma DecodeEncodePayload(f: Field, rest: Bytes)
    requires Valid(f)
    ensures DecodePayload(f.num, WireType(f), Payload(f) + rest) == Some((f, rest))
  {
    match f
    case Varint(_, value) => DecodeU64(value, rest);
    case Fixed64(_, bytes) => TakeBack(bytes, rest);
    case Data(_, bytes) =>
      DecodeU64(|bytes|, bytes + rest);
      assert EncodeVarint(|bytes|) + bytes + rest == EncodeVarint(|bytes|) + (bytes + rest);
      TakeBack(bytes, rest);
    case Fixed32(_, bytes) => TakeBack(bytes, rest);
  }

  lemma DecodeEncodeField(f: Field, rest: Bytes)
    requires Valid(f)
    ensures DecodeField(EncodeField(f) + rest) == Some((f, rest))
  {
    var key := EncodeVarint(f.num * 8 + WireType(f));
    DecodeKey(f.num, WireType(f), Payload(f) + rest);
    Associate(key, Payload(f), rest);
    DecodeEncodePayload(f, rest);
  }

  lemma DecodeKey(num: nat, wire: nat, rest: Bytes)
    requires 1 <= num < MAX_FIELD && wire < 8
    ensures DecodeField(EncodeVarint(num * 8 + wire) + rest) == DecodePayload(num, wire, rest)
  {
    DecodeU64(num * 8 + wire, rest);
  }

  /** A key is read exactly if its field number is from 1 to 536,870,911 and its wire type 0, 1, 2 or 5:
      anything else is refused, whatever follows. */
  lemma KeyIsReadIff(num: nat, wire: nat, rest: Bytes)
    requires num < 0x1000_0000_0000_0000 && wire < 8
    ensures
      DecodeField(EncodeVarint(num * 8 + wire) + rest) ==
      if 1 <= num <= 536_870_911 && wire in {0, 1, 2, 5} then DecodePayload(num, wire, rest) else None
  {
    DecodeU64(num * 8 + wire, rest);
  }

  function EncodeFields(fs: seq<Field>): Bytes {
    if fs == [] then [] else EncodeField(fs[0]) + EncodeFields(fs[1..])
  }

  function DecodeFields(bs: Bytes): Option<seq<Field>>
    decreases |bs|
  {
    if bs == [] then Some([])
    else
      var f := DecodeField(bs);
      if f.None? then None
      else
        var rest := DecodeFields(f.value.1);
        if rest.None? then None else Some([f.value.0] + rest.value)
  }

  predicate AllValid(fs: seq<Field>) {
    forall i :: 0 <= i < |fs| ==> Valid(fs[i])
  }

  lemma {:induction false} EncodeVarintNotEmpty(n: nat)
    ensures EncodeVarint(n) != []
  {
  }

  lemma {:induction false} DecodeEncodeFields(fs: seq<Field>)
    requires AllValid(fs)
    ensures DecodeFields(EncodeFields(fs)) == Some(fs)
  {
    if fs != [] {
      EncodeVarintNotEmpty(fs[0].num * 8 + WireType(fs[0]));
      DecodeEncodeField(fs[0], EncodeFields(fs[1..]));
      DecodeEncodeFields(fs[1..]);
      assert [fs[0]] + fs[1..] == fs;
    }
  }

  lemma {:induction false} EncodeConcat(a: seq<Field>, b: seq<Field>)
    ensures EncodeFields(a + b) == EncodeFields(a) + EncodeFields(b)
  {
    if a == [] {
      assert a + b == b;
    } else {
      assert (a + b)[1..] == a[1..] + b;
      EncodeConcat(a[1..], b);
      Associate(EncodeField(a[0]), EncodeFields(a[1..]), EncodeFields(b));
    }
  }

  lemma TakeIgnoresRest(bs: Bytes, n: nat, more: Bytes)
    requires n <= |bs|
    ensures Take(bs + more, n) == Some((bs[..n], bs[n..] + more))
  {
    assert (bs + more)[..n] == bs[..n] && (bs + more)[n..] == bs[n..] + more;
  }

  lemma PayloadIgnoresRest(num: nat, wire: nat, bs: Bytes, more: Bytes)
    requires DecodePayload(num, wire, bs).Some?
    ensures
      var r := DecodePayload(num, wire, bs).value;
      DecodePayload(num, wire, bs + more) == Some((r.0, r.1 + more))
  {
    if wire == 0 {
      VarintIgnoresRest(bs, 0, more);
    } else if wire == 2 {
      VarintIgnoresRest(bs, 0, more);
      var n := DecodeVarint(bs, 0).value;
      TakeIgnoresRest(n.1, n.0, more);
    } else {
      TakeIgnoresRest(bs, if wire == 1 then 8 else 4, more);
    }
  }

  lemma FieldIgnoresRest(bs: Bytes, more: Bytes)
    requires DecodeField(bs).Some?
    ensures DecodeField(bs + more) == Some((DecodeField(bs).value.0, DecodeField(bs).value.1 + more))
  {
    var key := DecodeVarint(bs, 0).value;
    VarintIgnoresRest(bs, 0, more);
    PayloadIgnoresRest(key.0 / 8, key.0 % 8, key.1, more);
  }

  function Cons(f: Field, rest: Option<seq<Field>>): Option<seq<Field>> {
    if rest.None? then None else Some([f] + rest.value)
  }

  lemma DecodeCons(bs: Bytes)
    requires bs != [] && DecodeField(bs).Some?
    ensures DecodeFields(bs) == Cons(DecodeField(bs).value.0, DecodeFields(DecodeField(bs).value.1))
  {
  }

  /** The records of two messages on end are the records of the first and then of the second. */
  lemma {:induction false} DecodeConcat(a: Bytes, b: Bytes)
    requires DecodeFields(a).Some? && DecodeFields(b).Some?
    ensures DecodeFields(a + b) == Some(DecodeFields(a).value + DecodeFields(b).value)
    decreases |a|
  {
    var fb := DecodeFields(b).value;
    if a == [] {
      assert a + b == b && [] + fb == fb;
    } else {
      var f, more := DecodeField(a).value.0, DecodeField(a).value.1;
      FieldIgnoresRest(a, b);
      DecodeConcat(more, b);
      DecodeCons(a);
      DecodeCons(a + b);
      Associate([f], DecodeFields(more).value, fb);
    }
  }

  /** Nothing that follows makes up for records that do not parse. */
  lemma {:induction false} DecodeConcatFails(a: Bytes, b: Bytes)
    requires DecodeFields(a).Some? && DecodeFields(b).None?
    ensures DecodeFields(a + b).None?
    decreases |a|
  {
    if a == [] {
      assert a + b == b;
    } else {
      FieldIgnoresRest(a, b);
      DecodeConcatFails(DecodeField(a).value.1, b);
      DecodeCons(a + b);
    }
  }

  // ----- messages -----

  /** Folds records into a message, later ones over earlier ones. */
  function Fold<M>(apply: (M, Field) -> Option<M>, m: M, fs: seq<Field>): Option<M> {
    if fs == [] then Some(m)
    else
      var next := apply(m, fs[0]);
      if next.None? then None else Fold(apply, next.value, fs[1..])
  }

  lemma {:induction false} FoldConcat<M>(apply: (M, Field) -> Option<M>, m: M, a: seq<Field>, b: seq<Field>)
    ensures
      var mid := Fold(apply, m, a);
      Fold(apply, m, a + b) == if mid.None? then None else Fold(apply, mid.value, b)
    decreases |a|
  {
    if a == [] {
      assert a + b == b;
    } else {
      assert (a + b)[1..] == a[1..] + b;
      var next := apply(m, a[0]);
      if next.Some? { FoldConcat(apply, next.value, a[1..], b); }
    }
  }

  /** The records whose numbers a message knows. */
  function Known(fs: seq<Field>, nums: set<nat>): seq<Field> {
    if fs == [] then [] else (if fs[0].num in nums then [fs[0]] else []) + Known(fs[1..], nums)
  }

  /** A message that skips the numbers it does not know reads as if they were not there. */
  lemma {:induction false} FoldKnown<M(!new)>(apply: (M, Field) -> Option<M>, m: M, fs: seq<Field>, nums: set<nat>)
    requires forall x, f: Field :: f.num !in nums ==> apply(x, f) == Some(x)
    ensures Fold(apply, m, fs) == Fold(apply, m, Known(fs, nums))
    decreases |fs|
  {
    if fs != [] {
      var next, rest := apply(m, fs[0]), Known(fs[1..], nums);
      if next.Some? { FoldKnown(apply, next.value, fs[1..], nums); }
      if fs[0].num in nums {
        assert ([fs[0]] + rest)[0] == fs[0] && ([fs[0]] + rest)[1..] == rest;
      } else {
        assert [] + rest == rest;
      }
    }
  }

  /** If it depends on the record alone whether it is refused, one refused record is what it takes. */
  lemma {:induction false} FoldRefused<M(!new)>(apply: (M, Field) -> Option<M>, m: M, fs: seq<Field>, refused: Field -> bool)
    requires forall x, f: Field :: apply(x, f).None? <==> refused(f)
    ensures Fold(apply, m, fs).None? <==> exists f :: f in fs && refused(f)
    decreases |fs|
  {
    if fs != [] {
      assert fs == [fs[0]] + fs[1..];
      var next := apply(m, fs[0]);
      if next.Some? { FoldRefused(apply, next.value, fs[1..], refused); } else { assert fs[0] in fs && refused(fs[0]); }
    }
  }

  function DecodeMessage<M>(apply: (M, Field) -> Option<M>, m: M, bs: Bytes): Option<M> {
    var fs := DecodeFields(bs);
    if fs.None? then None else Fold(apply, m, fs.value)
  }

  lemma DecodeEncoded<M>(apply: (M, Field) -> Option<M>, m: M, fs: seq<Field>)
    requires AllValid(fs)
    ensures DecodeMessage(apply, m, EncodeFields(fs)) == Fold(apply, m, fs)
  {
    DecodeEncodeFields(fs);
  }

  /** Last one wins: whole records on end are read as the second message over the first, whatever the
      second is; a first message that is refused stays refused. */
  lemma LastOneWins<M>(apply: (M, Field) -> Option<M>, m: M, a: Bytes, b: Bytes)
    requires DecodeFields(a).Some?
    ensures
      var first := DecodeMessage(apply, m, a);
      DecodeMessage(apply, m, a + b) == if first.None? then None else DecodeMessage(apply, first.value, b)
  {
    if DecodeFields(b).None? {
      DecodeConcatFails(a, b);
    } else {
      DecodeConcat(a, b);
      FoldConcat(apply, m, DecodeFields(a).value, DecodeFields(b).value);
    }
  }
}

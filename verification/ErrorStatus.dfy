/**
Errors and their wire form, nativelink-error/src/lib.rs: the messages PreconditionFailure, Any and
google.rpc.Status, the conversions between Error, google.rpc.Status and tonic::Status, and merging.
*/
module ErrorStatus {
  import opened Options
  import opened SeqLemmas
  import opened ProtoWire

  // ----- text -----

  predicate Continues(bs: Bytes, i: nat) {
    i < |bs| && 0x80 <= bs[i] < 0xC0
  }

  /** The length of the well-formed character at the front of `bs`, or 0 (RFC 3629, section 4). */
  function CharLength(bs: Bytes): nat {
    if bs == [] then 0
    else if bs[0] < 0x80 then 1
    else if 0xC2 <= bs[0] < 0xE0 then if Continues(bs, 1) then 2 else 0
    else if 0xE0 <= bs[0] < 0xF0 then
      if Continues(bs, 1) && Continues(bs, 2)
        && (bs[0] == 0xE0 ==> bs[1] >= 0xA0) && (bs[0] == 0xED ==> bs[1] < 0xA0) then 3 else 0
    else if 0xF0 <= bs[0] < 0xF5 then
      if Continues(bs, 1) && Continues(bs, 2) && Continues(bs, 3)
        && (bs[0] == 0xF0 ==> bs[1] >= 0x90) && (bs[0] == 0xF4 ==> bs[1] < 0x90) then 4 else 0
    else 0
  }

  predicate ValidUtf8(bs: Bytes)
    decreases |bs|
  {
    bs == [] || (0 < CharLength(bs) <= |bs| && ValidUtf8(bs[CharLength(bs)..]))
  }

  /** A Rust string. */
  type Text = bs: Bytes | ValidUtf8(bs)

  lemma CharIgnoresRest(a: Bytes, b: Bytes)
    requires 0 < CharLength(a) <= |a|
    ensures CharLength(a + b) == CharLength(a)
  {
    assert forall i :: 0 <= i < |a| ==> (a + b)[i] == a[i];
  }

  lemma {:induction false} Utf8Concat(a: Bytes, b: Bytes)
    requires ValidUtf8(a) && ValidUtf8(b)
    ensures ValidUtf8(a + b)
    decreases |a|
  {
    if a == [] {
      assert a + b == b;
    } else {
      var n := CharLength(a);
      Utf8Concat(a[n..], b);
      CharIgnoresRest(a, b);
      DropConcat(a, b, n);
    }
  }

  /** The characters of Unicode. */
  predicate Scalar(c: nat) {
    c < 0xD800 || 0xE000 <= c < 0x11_0000
  }

  /** How a character is written (RFC 3629, section 3). */
  function EncodeChar(c: nat): Bytes
    requires Scalar(c)
  {
    if c < 0x80 then [c]
    else if c < 0x800 then [0xC0 + c / 64, 0x80 + c % 64]
    else if c < 0x1_0000 then [0xE0 + c / 64 / 64, 0x80 + c / 64 % 64, 0x80 + c % 64]
    else [0xF0 + c / 64 / 64 / 64, 0x80 + c / 64 / 64 % 64, 0x80 + c / 64 % 64, 0x80 + c % 64]
  }

  ghost predicate AllScalar(cs: seq<nat>) {
    forall i :: 0 <= i < |cs| ==> Scalar(cs[i])
  }

  ghost function EncodeChars(cs: seq<nat>): Bytes
    requires AllScalar(cs)
  {
    if cs == [] then [] else EncodeChar(cs[0]) + EncodeChars(cs[1..])
  }

  lemma EncodedIsOneChar(c: nat, rest: Bytes)
    requires Scalar(c)
    ensures CharLength(EncodeChar(c) + rest) == |EncodeChar(c)|
  {
    LoneChar(c);
    CharIgnoresRest(EncodeChar(c), rest);
  }

  lemma LoneChar(c: nat)
    requires Scalar(c)
    ensures CharLength(EncodeChar(c)) == |EncodeChar(c)|
  {
  }

  /** Six bits more. */
  lemma SixBits(a: nat, b: nat)
    requires b < 64
    ensures (a * 64 + b) / 64 == a && (a * 64 + b) % 64 == b
  {
  }

  lemma TwoBytes(a: nat, b: nat)
    requires 2 <= a < 32 && b < 64
    ensures Scalar(a * 64 + b) && EncodeChar(a * 64 + b) == [0xC0 + a, 0x80 + b]
  {
    SixBits(a, b);
  }

  lemma ThreeBytes(a: nat, b: nat, c: nat)
    requires a < 16 && b < 64 && c < 64 && (a == 0 ==> b >= 32) && (a == 13 ==> b < 32)
    ensures var x := (a * 64 + b) * 64 + c; Scalar(x) && EncodeChar(x) == [0xE0 + a, 0x80 + b, 0x80 + c]
  {
    SixBits(a, b);
    SixBits(a * 64 + b, c);
  }

  lemma FourBytes(a: nat, b: nat, c: nat, d: nat)
    requires a < 5 && b < 64 && c < 64 && d < 64 && (a == 0 ==> b >= 16) && (a == 4 ==> b < 16)
    ensures var x := ((a * 64 + b) * 64 + c) * 64 + d; Scalar(x) && EncodeChar(x) == [0xF0 + a, 0x80 + b, 0x80 + c, 0x80 + d]
  {
    SixBits(a, b);
    SixBits(a * 64 + b, c);
    SixBits((a * 64 + b) * 64 + c, d);
  }

  lemma OneCharIsEncoded(bs: Bytes) returns (c: nat)
    requires 0 < CharLength(bs) <= |bs|
    ensures Scalar(c) && bs[..CharLength(bs)] == EncodeChar(c)
  {
    var n := CharLength(bs);
    var first: int := bs[0];
    if n == 1 {
      c := first;
    } else {
      var second: int := bs[1] - 0x80;
      if n == 2 {
        TwoBytes(first - 0xC0, second);
        c := (first - 0xC0) * 64 + second;
      } else {
        var third: int := bs[2] - 0x80;
        if n == 3 {
          ThreeBytes(first - 0xE0, second, third);
          c := ((first - 0xE0) * 64 + second) * 64 + third;
        } else {
          var fourth: int := bs[3] - 0x80;
          FourBytes(first - 0xF0, second, third, fourth);
          c := (((first - 0xF0) * 64 + second) * 64 + third) * 64 + fourth;
        }
      }
    }
  }

  lemma {:induction false} EncodedIsValid(cs: seq<nat>)
    requires AllScalar(cs)
    ensures ValidUtf8(EncodeChars(cs))
  {
    if cs != [] {
      var first, rest := EncodeChar(cs[0]), EncodeChars(cs[1..]);
      EncodedIsValid(cs[1..]);
      EncodedIsOneChar(cs[0], rest);
      assert (first + rest)[|first|..] == rest;
    }
  }

  lemma {:induction false} ValidIsEncoded(bs: Bytes) returns (cs: seq<nat>)
    requires ValidUtf8(bs)
    ensures AllScalar(cs) && EncodeChars(cs) == bs
    decreases |bs|
  {
    cs := [];
    if bs != [] {
      var n := CharLength(bs);
      var c := OneCharIsEncoded(bs);
      var rest := ValidIsEncoded(bs[n..]);
      cs := [c] + rest;
      assert cs[1..] == rest;
      SplitAt(bs, n);
    }
  }

  /** The texts are exactly the encodings of lists of characters. */
  lemma TextIffEncoded(bs: Bytes)
    ensures ValidUtf8(bs) <==> exists cs :: AllScalar(cs) && EncodeChars(cs) == bs
  {
    if ValidUtf8(bs) { var cs := ValidIsEncoded(bs); }
    if cs :| AllScalar(cs) && EncodeChars(cs) == bs { EncodedIsValid(cs); }
  }

  // ----- PreconditionFailure -----

  datatype Violation = Violation(kind: Text, subject: Text, description: Text)

  const NO_VIOLATION := Violation([], [], [])

  /** A singular string or bytes field is left out when it is empty. */
  function DataField(num: nat, bytes: Bytes): seq<Field> {
    if bytes == [] then [] else [Data(num, bytes)]
  }

  function ApplyViolation(v: Violation, f: Field): Option<Violation> {
    if f.num !in {1, 2, 3} then Some(v)
    else if !f.Data? || !ValidUtf8(f.bytes) then None
    else if f.num == 1 then Some(v.(kind := f.bytes))
    else if f.num == 2 then Some(v.(subject := f.bytes))
    else Some(v.(description := f.bytes))
  }

  function ViolationFields(v: Violation): seq<Field> {
    DataField(1, v.kind) + DataField(2, v.subject) + DataField(3, v.description)
  }

  function EncodeViolation(v: Violation): Bytes {
    EncodeFields(ViolationFields(v))
  }

  function DecodeViolation(bs: Bytes): Option<Violation> {
    DecodeMessage(ApplyViolation, NO_VIOLATION, bs)
  }

  /** What one optional record does when it is folded in. */
  lemma FoldData<M>(apply: (M, Field) -> Option<M>, m: M, num: nat, bytes: Bytes)
    ensures Fold(apply, m, DataField(num, bytes)) == if bytes == [] then Some(m) else apply(m, Data(num, bytes))
  {
    if bytes != [] {
      var fs := DataField(num, bytes);
      assert fs[0] == Data(num, bytes) && fs[1..] == [];
      var next := apply(m, fs[0]);
      if next.Some? { assert Fold(apply, next.value, []) == next; }
    }
  }

  /** A length-delimited record as it stands on the wire; an empty one is left out. */
  function Record(key: Byte, bytes: Bytes): Bytes {
    if bytes == [] then [] else [key] + EncodeVarint(|bytes|) + bytes
  }

  lemma RecordShape(num: nat, bytes: Bytes)
    requires 1 <= num < 16
    ensures EncodeFields(DataField(num, bytes)) == Record(num * 8 + 2, bytes)
  {
    if bytes != [] {
      var f := Data(num, bytes);
      assert [f][1..] == [];
      assert EncodeFields([f]) == EncodeField(f) + [];
      assert EncodeField(f) == [num * 8 + 2] + (EncodeVarint(|bytes|) + bytes);
    }
  }

  /** The keys of the three fields of a violation are the bytes 10, 18 and 26. */
  lemma ViolationShape(v: Violation)
    ensures EncodeViolation(v) == Record(10, v.kind) + Record(18, v.subject) + Record(26, v.description)
  {
    EncodeConcat(DataField(1, v.kind) + DataField(2, v.subject), DataField(3, v.description));
    EncodeConcat(DataField(1, v.kind), DataField(2, v.subject));
    RecordShape(1, v.kind);
    RecordShape(2, v.subject);
    RecordShape(3, v.description);
  }

  /** Reading a violation over another one keeps what the new one leaves out. */
  function Over(v: Violation, w: Violation): Violation {
    Violation(
      if w.kind == [] then v.kind else w.kind,
      if w.subject == [] then v.subject else w.subject,
      if w.description == [] then v.description else w.description)
  }

  lemma FoldViolation(v: Violation, w: Violation)
    ensures Fold(ApplyViolation, v, ViolationFields(w)) == Some(Over(v, w))
  {
    var a, b, c := DataField(1, w.kind), DataField(2, w.subject), DataField(3, w.description);
    var v1 := if w.kind == [] then v else v.(kind := w.kind);
    var v2 := if w.subject == [] then v1 else v1.(subject := w.subject);
    FoldConcat(ApplyViolation, v, a + b, c);
    FoldConcat(ApplyViolation, v, a, b);
    FoldData(ApplyViolation, v, 1, w.kind);
    FoldData(ApplyViolation, v1, 2, w.subject);
    FoldData(ApplyViolation, v2, 3, w.description);
  }

  /** Lengths that a machine of 64 bits can hold. */
  predicate Short(bs: Bytes) {
    |bs| < U64
  }

  predicate ShortViolation(v: Violation) {
    Short(v.kind) && Short(v.subject) && Short(v.description) && Short(EncodeViolation(v))
  }

  lemma DecodeEncodeViolation(v: Violation)
    requires ShortViolation(v)
    ensures DecodeViolation(EncodeViolation(v)) == Some(v)
  {
    ViolationFieldsValid(v);
    DecodeEncoded(ApplyViolation, NO_VIOLATION, ViolationFields(v));
    FoldViolation(NO_VIOLATION, v);
  }

  lemma ViolationFieldsValid(v: Violation)
    requires ShortViolation(v)
    ensures AllValid(ViolationFields(v))
  {
  }

  function ViolationField(v: Violation): Field {
    Data(1, EncodeViolation(v))
  }

  /** A repeated message is written once per element, even if the element is empty. */
  function FailureFields(vs: seq<Violation>): seq<Field> {
    Map(ViolationField, vs)
  }

  function ApplyFailure(vs: seq<Violation>, f: Field): Option<seq<Violation>> {
    if f.num != 1 then Some(vs)
    else if !f.Data? then None
    else
      var v := DecodeViolation(f.bytes);
      if v.None? then None else Some(vs + [v.value])
  }

  function EncodeFailure(vs: seq<Violation>): Bytes {
    EncodeFields(FailureFields(vs))
  }

  function DecodeFailure(bs: Bytes): Option<seq<Violation>> {
    DecodeMessage(ApplyFailure, [], bs)
  }

  lemma FoldCons<M>(apply: (M, Field) -> Option<M>, m: M, f: Field, rest: seq<Field>, next: M)
    requires apply(m, f) == Some(next)
    ensures Fold(apply, m, [f] + rest) == Fold(apply, next, rest)
  {
    assert ([f] + rest)[0] == f && ([f] + rest)[1..] == rest;
  }

  lemma {:induction false} FoldFailure(before: seq<Violation>, vs: seq<Violation>)
    requires forall i :: 0 <= i < |vs| ==> ShortViolation(vs[i])
    ensures Fold(ApplyFailure, before, FailureFields(vs)) == Some(before + vs)
    decreases |vs|
  {
    if vs == [] {
      assert before + vs == before;
    } else {
      ApplyOne(before, vs[0]);
      MapCons(ViolationField, vs);
      FoldCons(ApplyFailure, before, ViolationField(vs[0]), FailureFields(vs[1..]), before + [vs[0]]);
      FoldFailure(before + [vs[0]], vs[1..]);
      Shift(before, vs);
    }
  }

  lemma ApplyOne(before: seq<Violation>, v: Violation)
    requires ShortViolation(v)
    ensures ApplyFailure(before, ViolationField(v)) == Some(before + [v])
  {
    DecodeEncodeViolation(v);
  }

  /** Encoding and decoding a PreconditionFailure are inverse, whatever its violations. */
  lemma DecodeEncodeFailure(vs: seq<Violation>)
    requires forall i :: 0 <= i < |vs| ==> ShortViolation(vs[i])
    ensures DecodeFailure(EncodeFailure(vs)) == Some(vs)
  {
    FailureFieldsValid(vs);
    DecodeEncoded(ApplyFailure, [], FailureFields(vs));
    FoldFailure([], vs);
    EmptyFirst(vs);
  }

  lemma FailureFieldsValid(vs: seq<Violation>)
    requires forall i :: 0 <= i < |vs| ==> ShortViolation(vs[i])
    ensures AllValid(FailureFields(vs))
  {
    forall i | 0 <= i < |vs| ensures Valid(FailureFields(vs)[i]) {
      assert FailureFields(vs)[i] == ViolationField(vs[i]) && ShortViolation(vs[i]);
    }
  }

  // ----- google.rpc.Status -----

  datatype AnyMessage = AnyMessage(typeUrl: Text, value: Bytes)

  const NO_ANY := AnyMessage([], [])

  function AnyFields(a: AnyMessage): seq<Field> {
    DataField(1, a.typeUrl) + DataField(2, a.value)
  }

  function ApplyAny(a: AnyMessage, f: Field): Option<AnyMessage> {
    if f.num !in {1, 2} then Some(a)
    else if !f.Data? then None
    else if f.num == 2 then Some(a.(value := f.bytes))
    else if ValidUtf8(f.bytes) then Some(a.(typeUrl := f.bytes))
    else None
  }

  function EncodeAny(a: AnyMessage): Bytes {
    EncodeFields(AnyFields(a))
  }

  function DecodeAny(bs: Bytes): Option<AnyMessage> {
    DecodeMessage(ApplyAny, NO_ANY, bs)
  }

  predicate ShortAny(a: AnyMessage) {
    Short(a.typeUrl) && Short(a.value) && Short(EncodeAny(a))
  }

  lemma DecodeEncodeAny(a: AnyMessage)
    requires ShortAny(a)
    ensures DecodeAny(EncodeAny(a)) == Some(a)
  {
    DecodeEncoded(ApplyAny, NO_ANY, AnyFields(a));
    FoldConcat(ApplyAny, NO_ANY, DataField(1, a.typeUrl), DataField(2, a.value));
    FoldData(ApplyAny, NO_ANY, 1, a.typeUrl);
    FoldData(ApplyAny, NO_ANY.(typeUrl := a.typeUrl), 2, a.value);
  }

  type Int32 = c: int | -0x8000_0000 <= c < 0x8000_0000

  datatype Status = Status(code: Int32, message: Text, details: seq<AnyMessage>)

  const NO_STATUS := Status(0, [], [])

  /** A negative code is written as its 64-bit two's complement. */
  function ToU64(c: Int32): nat {
    if c >= 0 then c else U64 + c
  }

  /** The low 32 bits, as a signed number. */
  function ToInt32(v: nat): Int32 {
    var low := v % 0x1_0000_0000;
    if low < 0x8000_0000 then low else low - 0x1_0000_0000
  }

  lemma Int32RoundTrip(c: Int32)
    ensures ToU64(c) < U64 && ToInt32(ToU64(c)) == c
  {
  }

  function CodeField(c: Int32): seq<Field> {
    if c == 0 then [] else [Varint(1, ToU64(c))]
  }

  function DetailField(a: AnyMessage): Field {
    Data(3, EncodeAny(a))
  }

  function DetailFields(details: seq<AnyMessage>): seq<Field> {
    Map(DetailField, details)
  }

  function StatusFields(s: Status): seq<Field> {
    CodeField(s.code) + DataField(2, s.message) + DetailFields(s.details)
  }

  function ApplyStatus(s: Status, f: Field): Option<Status> {
    if f.num == 1 then if f.Varint? then Some(s.(code := ToInt32(f.value))) else None
    else if f.num == 2 then if f.Data? && ValidUtf8(f.bytes) then Some(s.(message := f.bytes)) else None
    else if f.num == 3 then
      if !f.Data? then None
      else
        var a := DecodeAny(f.bytes);
        if a.None? then None else Some(s.(details := s.details + [a.value]))
    else Some(s)
  }

  function EncodeStatus(s: Status): Bytes {
    EncodeFields(StatusFields(s))
  }

  function DecodeStatus(bs: Bytes): Option<Status> {
    DecodeMessage(ApplyStatus, NO_STATUS, bs)
  }

  predicate ShortStatus(s: Status) {
    Short(s.message) && forall i :: 0 <= i < |s.details| ==> ShortAny(s.details[i])
  }

  lemma {:induction false} FoldDetails(s: Status, details: seq<AnyMessage>)
    requires forall i :: 0 <= i < |details| ==> ShortAny(details[i])
    ensures Fold(ApplyStatus, s, DetailFields(details)) == Some(s.(details := s.details + details))
    decreases |details|
  {
    if details == [] {
      assert s.details + details == s.details;
    } else {
      var next := s.(details := s.details + [details[0]]);
      ApplyDetail(s, details[0]);
      MapCons(DetailField, details);
      FoldCons(ApplyStatus, s, DetailField(details[0]), DetailFields(details[1..]), next);
      FoldDetails(next, details[1..]);
      Shift(s.details, details);
    }
  }

  lemma ApplyDetail(s: Status, a: AnyMessage)
    requires ShortAny(a)
    ensures ApplyStatus(s, DetailField(a)) == Some(s.(details := s.details + [a]))
  {
    DecodeEncodeAny(a);
  }

  lemma FoldCode(s: Status, c: Int32)
    ensures Fold(ApplyStatus, s, CodeField(c)) == Some(if c == 0 then s else s.(code := c))
  {
    Int32RoundTrip(c);
    if c != 0 {
      var fs := CodeField(c);
      assert fs[1..] == [] && Fold(ApplyStatus, s.(code := c), []) == Some(s.(code := c));
    }
  }

  /** Reading a status over another: the last code and message win, the details add up. */
  function OverStatus(s: Status, t: Status): Status {
    Status(
      if t.code == 0 then s.code else t.code,
      if t.message == [] then s.message else t.message,
      s.details + t.details)
  }

  lemma FoldStatus(s: Status, t: Status)
    requires ShortStatus(t)
    ensures Fold(ApplyStatus, s, StatusFields(t)) == Some(OverStatus(s, t))
  {
    var a, b, c := CodeField(t.code), DataField(2, t.message), DetailFields(t.details);
    var s1 := if t.code == 0 then s else s.(code := t.code);
    var s2 := if t.message == [] then s1 else s1.(message := t.message);
    FoldConcat(ApplyStatus, s, a + b, c);
    FoldConcat(ApplyStatus, s, a, b);
    FoldCode(s, t.code);
    FoldData(ApplyStatus, s1, 2, t.message);
    FoldDetails(s2, t.details);
  }

  lemma StatusFieldsValid(s: Status)
    requires ShortStatus(s)
    ensures AllValid(StatusFields(s))
  {
    Int32RoundTrip(s.code);
    forall i | 0 <= i < |s.details| ensures Valid(DetailFields(s.details)[i]) {
      assert DetailFields(s.details)[i] == DetailField(s.details[i]) && ShortAny(s.details[i]);
    }
  }

  /** Zero is left out, and a negative code is written as its 64-bit two's complement. */
  function CodeRecord(c: Int32): Bytes {
    if c == 0 then []
    else [8] + EncodeVarint(if c > 0 then c else 0x1_0000_0000_0000_0000 + c)
  }

  function DetailRecords(details: seq<AnyMessage>): Bytes {
    if details == [] then []
    else
      var bytes := EncodeAny(details[0]);
      [26] + (EncodeVarint(|bytes|) + bytes) + DetailRecords(details[1..])
  }

  lemma CodeShape(c: Int32)
    ensures EncodeFields(CodeField(c)) == CodeRecord(c)
  {
    if c != 0 {
      var f := Varint(1, ToU64(c));
      assert [f][1..] == [];
      assert EncodeFields([f]) == EncodeField(f) + [];
    }
  }

  lemma {:induction false} DetailShape(details: seq<AnyMessage>)
    ensures EncodeFields(DetailFields(details)) == DetailRecords(details)
  {
    if details != [] {
      MapCons(DetailField, details);
      var f, rest := DetailField(details[0]), DetailFields(details[1..]);
      assert ([f] + rest)[1..] == rest;
      DetailShape(details[1..]);
    }
  }

  /** The code is a varint under key 8, the message has key 18, and each detail key 26. */
  lemma StatusShape(s: Status)
    ensures EncodeStatus(s) == CodeRecord(s.code) + Record(18, s.message) + DetailRecords(s.details)
  {
    EncodeConcat(CodeField(s.code) + DataField(2, s.message), DetailFields(s.details));
    EncodeConcat(CodeField(s.code), DataField(2, s.message));
    CodeShape(s.code);
    RecordShape(2, s.message);
    DetailShape(s.details);
  }

  /** Encoding and decoding a google.rpc.Status are inverse. */
  lemma DecodeEncodeStatus(s: Status)
    requires ShortStatus(s)
    ensures DecodeStatus(EncodeStatus(s)) == Some(s)
  {
    StatusFieldsValid(s);
    DecodeEncoded(ApplyStatus, NO_STATUS, StatusFields(s));
    FoldStatus(NO_STATUS, s);
    EmptyFirst(s.details);
  }

  /** Records that a message does not know are skipped, in each of the four messages. */
  lemma UnknownFieldsAreSkipped(v: Violation, vs: seq<Violation>, a: AnyMessage, s: Status, fs: seq<Field>)
    ensures Fold(ApplyViolation, v, fs) == Fold(ApplyViolation, v, Known(fs, {1, 2, 3}))
    ensures Fold(ApplyFailure, vs, fs) == Fold(ApplyFailure, vs, Known(fs, {1}))
    ensures Fold(ApplyAny, a, fs) == Fold(ApplyAny, a, Known(fs, {1, 2}))
    ensures Fold(ApplyStatus, s, fs) == Fold(ApplyStatus, s, Known(fs, {1, 2, 3}))
  {
    ViolationSkips(v, fs);
    FailureSkips(vs, fs);
    AnySkips(a, fs);
    StatusSkips(s, fs);
  }

  lemma ViolationSkips(v: Violation, fs: seq<Field>)
    ensures Fold(ApplyViolation, v, fs) == Fold(ApplyViolation, v, Known(fs, {1, 2, 3}))
  {
    FoldKnown(ApplyViolation, v, fs, {1, 2, 3});
  }

  lemma FailureSkips(vs: seq<Violation>, fs: seq<Field>)
    ensures Fold(ApplyFailure, vs, fs) == Fold(ApplyFailure, vs, Known(fs, {1}))
  {
    FoldKnown(ApplyFailure, vs, fs, {1});
  }

  lemma AnySkips(a: AnyMessage, fs: seq<Field>)
    ensures Fold(ApplyAny, a, fs) == Fold(ApplyAny, a, Known(fs, {1, 2}))
  {
    FoldKnown(ApplyAny, a, fs, {1, 2});
  }

  lemma StatusSkips(s: Status, fs: seq<Field>)
    ensures Fold(ApplyStatus, s, fs) == Fold(ApplyStatus, s, Known(fs, {1, 2, 3}))
  {
    FoldKnown(ApplyStatus, s, fs, {1, 2, 3});
  }

  predicate IsText(f: Field) {
    f.Data? && ValidUtf8(f.bytes)
  }

  predicate BadInViolation(f: Field) {
    f.num in {1, 2, 3} && !IsText(f)
  }

  predicate BadInFailure(f: Field) {
    f.num == 1 && (!f.Data? || DecodeViolation(f.bytes).None?)
  }

  predicate BadInAny(f: Field) {
    (f.num == 1 && !IsText(f)) || (f.num == 2 && !f.Data?)
  }

  predicate BadInStatus(f: Field) {
    || (f.num == 1 && !f.Varint?) || (f.num == 2 && !IsText(f))
    || (f.num == 3 && (!f.Data? || DecodeAny(f.bytes).None?))
  }

  /** The bytes are not whole records, or one of the records is bad. */
  ghost predicate Unreadable(bs: Bytes, bad: Field -> bool) {
    DecodeFields(bs).None? || exists f :: f in DecodeFields(bs).value && bad(f)
  }

  /** Arbitrary bytes are refused exactly when they are not whole records, or a known one is of the wrong
      kind, is not text where it should be, or holds a message that is itself refused. */
  lemma RefusedIff(bs: Bytes)
    ensures DecodeViolation(bs).None? <==> Unreadable(bs, BadInViolation)
    ensures DecodeFailure(bs).None? <==> Unreadable(bs, BadInFailure)
    ensures DecodeAny(bs).None? <==> Unreadable(bs, BadInAny)
    ensures DecodeStatus(bs).None? <==> Unreadable(bs, BadInStatus)
  {
    ViolationRefused(bs);
    FailureRefused(bs);
    AnyRefused(bs);
    StatusRefused(bs);
  }

  lemma ViolationRefused(bs: Bytes)
    ensures DecodeViolation(bs).None? <==> Unreadable(bs, BadInViolation)
  {
    if DecodeFields(bs).Some? { FoldRefused(ApplyViolation, NO_VIOLATION, DecodeFields(bs).value, BadInViolation); }
  }

  lemma FailureRefused(bs: Bytes)
    ensures DecodeFailure(bs).None? <==> Unreadable(bs, BadInFailure)
  {
    if DecodeFields(bs).Some? { FoldRefused(ApplyFailure, [], DecodeFields(bs).value, BadInFailure); }
  }

  lemma AnyRefused(bs: Bytes)
    ensures DecodeAny(bs).None? <==> Unreadable(bs, BadInAny)
  {
    if DecodeFields(bs).Some? { FoldRefused(ApplyAny, NO_ANY, DecodeFields(bs).value, BadInAny); }
  }

  lemma StatusRefused(bs: Bytes)
    ensures DecodeStatus(bs).None? <==> Unreadable(bs, BadInStatus)
  {
    if DecodeFields(bs).Some? { FoldRefused(ApplyStatus, NO_STATUS, DecodeFields(bs).value, BadInStatus); }
  }

  /** Two encoded statuses on end decode as the second read over the first. */
  lemma DecodeTwoStatuses(s: Status, t: Status)
    requires ShortStatus(s) && ShortStatus(t)
    ensures DecodeStatus(EncodeStatus(s) + EncodeStatus(t)) == Some(OverStatus(s, t))
  {
    DecodeEncodeStatus(s);
    StatusFieldsValid(t);
    LastOneWins(ApplyStatus, NO_STATUS, EncodeStatus(s), EncodeStatus(t));
    DecodeEncoded(ApplyStatus, s, StatusFields(t));
    FoldStatus(s, t);
  }

  // ----- errors -----

  /** A gRPC status code. */
  type Code = c: int | 0 <= c <= 16

  const UNKNOWN: Code := 2

  function CodeFromInt32(c: Int32): Code {
    if 0 <= c <= 16 then c else UNKNOWN
  }

  datatype Error = Error(code: Code, messages: seq<Text>, details: seq<AnyMessage>)

  const BETWEEN: Bytes := [0x20, 0x3A, 0x20]

  /** The messages with " : " between them. */
  function JoinMessages(messages: seq<Text>): (r: Text) {
    if messages == [] then []
    else if |messages| == 1 then messages[0]
    else
      Utf8Concat(messages[0], BETWEEN);
      Utf8Concat(messages[0] + BETWEEN, JoinMessages(messages[1..]));
      messages[0] + BETWEEN + JoinMessages(messages[1..])
  }

  /** Where message `i` starts in the joined text: behind all bytes before it, and three more for each. */
  function Offset(messages: seq<Text>, i: nat): nat
    requires i <= |messages|
  {
    if i == 0 then 0 else Offset(messages, i - 1) + |messages[i - 1]| + 3
  }

  /** Message `i` stands at its place, and behind it, unless it is the last, " : ". */
  ghost predicate StandsAt(text: Bytes, messages: seq<Text>, i: nat)
    requires i < |messages|
  {
    var start, end := Offset(messages, i), Offset(messages, i) + |messages[i]|;
    && end <= |text| && text[start..end] == messages[i]
    && (i + 1 < |messages| ==> end + 3 <= |text| && text[end..end + 3] == [0x20, 0x3A, 0x20])
  }

  /** The text is the messages, in order, with " : " between neighbours, and nothing else. */
  ghost predicate Spells(text: Bytes, messages: seq<Text>) {
    if messages == [] then text == []
    else
      && |text| + 3 == Offset(messages, |messages|)
      && forall i :: 0 <= i < |messages| ==> StandsAt(text, messages, i)
  }

  lemma {:induction false} OffsetTail(messages: seq<Text>, i: nat)
    requires 0 < i <= |messages|
    ensures Offset(messages, i) == |messages[0]| + 3 + Offset(messages[1..], i - 1)
  {
    if i > 1 { OffsetTail(messages, i - 1); }
  }

  lemma {:induction false} JoinedSpells(messages: seq<Text>)
    ensures Spells(JoinMessages(messages), messages)
  {
    if |messages| == 1 {
      assert Offset(messages, 1) == Offset(messages, 0) + |messages[0]| + 3;
    } else if |messages| > 1 {
      var text, more := JoinMessages(messages), JoinMessages(messages[1..]);
      JoinedSpells(messages[1..]);
      OffsetTail(messages, |messages|);
      forall i | 0 <= i < |messages| ensures StandsAt(text, messages, i) {
        if i == 0 {
          FirstStands(messages, text, more);
        } else {
          assert StandsAt(more, messages[1..], i - 1);
          OtherStands(messages, text, more, i);
        }
      }
    }
  }

  lemma FirstStands(messages: seq<Text>, text: Bytes, more: Bytes)
    requires |messages| > 1 && text == messages[0] + BETWEEN + more
    ensures StandsAt(text, messages, 0)
  {
    SliceBefore(messages[0], BETWEEN, more);
  }

  lemma OtherStands(messages: seq<Text>, text: Bytes, more: Bytes, i: nat)
    requires |messages| > 1 && text == messages[0] + BETWEEN + more
    requires 0 < i < |messages| && StandsAt(more, messages[1..], i - 1)
    ensures StandsAt(text, messages, i)
  {
    OffsetTail(messages, i);
    var start := Offset(messages[1..], i - 1);
    var end := start + |messages[i]|;
    SliceBehind(messages[0] + BETWEEN, more, start, end);
    if i + 1 < |messages| { SliceBehind(messages[0] + BETWEEN, more, end, end + 3); }
  }

  lemma SliceBehind(a: Bytes, b: Bytes, i: nat, j: nat)
    requires i <= j <= |b|
    ensures (a + b)[|a| + i..|a| + j] == b[i..j]
  {
  }

  lemma SliceBefore(a: Bytes, b: Bytes, c: Bytes)
    ensures (a + b + c)[0..|a|] == a && (a + b + c)[|a|..|a| + |b|] == b
  {
  }

  function NewError(code: Code, message: Text): Error {
    Error(code, if message == [] then [] else [message], [])
  }

  function ToRpc(e: Error): Status {
    Status(e.code, JoinMessages(e.messages), e.details)
  }

  function FromRpc(s: Status): Error {
    Error(CodeFromInt32(s.code), [s.message], s.details)
  }

  /** tonic's status: the details travel as bytes in a trailer. */
  datatype TonicStatus = TonicStatus(code: Code, message: Text, trailer: Bytes)

  function ToTonic(e: Error): TonicStatus {
    TonicStatus(e.code, JoinMessages(e.messages), if e.details == [] then [] else EncodeStatus(ToRpc(e)))
  }

  /** `display` is tonic's rendering of a status, used when there is no trailer to read. */
  function FromTonic(s: TonicStatus, display: TonicStatus -> Text): Error {
    var rpc := DecodeStatus(s.trailer);
    if s.trailer != [] && rpc.Some? then FromRpc(rpc.value) else NewError(s.code, display(s))
  }

  predicate ShortError(e: Error) {
    ShortStatus(ToRpc(e))
  }

  lemma ErrorRoundTrip(e: Error)
    ensures FromRpc(ToRpc(e)) == Error(e.code, [JoinMessages(e.messages)], e.details)
  {
  }

  lemma TrailerNotEmpty(s: Status)
    requires s.details != []
    ensures EncodeStatus(s) != []
  {
    var fs := StatusFields(s);
    assert fs != [];
    EncodeVarintNotEmpty(fs[0].num * 8 + WireType(fs[0]));
  }

  /** What an error looks like on the wire: its code, its messages as one text, and a trailer exactly if
      it has details, from which all of it can be read. */
  lemma OnTheWire(e: Error)
    requires ShortError(e)
    ensures
      var s := ToTonic(e);
      && s.code == e.code && Spells(s.message, e.messages)
      && (s.trailer == [] <==> e.details == [])
      && (e.details != [] ==> DecodeStatus(s.trailer) == Some(Status(e.code, s.message, e.details)))
  {
    JoinedSpells(e.messages);
    DecodeEncodeStatus(ToRpc(e));
    if e.details != [] { TrailerNotEmpty(ToRpc(e)); }
  }

  /** What is made of the status of any server: a trailer that can be read counts alone, with code 2 for
      codes that do not exist; otherwise the code counts and the rendering is the message, if any. */
  lemma ReadFromTheWire(s: TonicStatus, display: TonicStatus -> Text)
    ensures
      var e := FromTonic(s, display);
      match (if s.trailer == [] then None else DecodeStatus(s.trailer))
      case Some(rpc) =>
        && e.messages == [rpc.message] && e.details == rpc.details
        && e.code == (if 0 <= rpc.code <= 16 then rpc.code else 2)
      case None => e.code == s.code && e.details == [] && Concat(e.messages) == display(s) && [] !in e.messages
  {
    var e := FromTonic(s, display);
    if e.messages == [display(s)] { ConcatOne(display(s)); }
  }

  function Concat(messages: seq<Text>): Bytes {
    if messages == [] then [] else messages[0] + Concat(messages[1..])
  }

  lemma ConcatOne(message: Text)
    ensures Concat([message]) == message
  {
    assert [message][1..] == [];
  }

  // ----- hops from server to server -----

  function Hop(e: Error, display: TonicStatus -> Text): Error {
    FromTonic(ToTonic(e), display)
  }

  function Iterate<T>(f: T -> T, x: T, n: nat): T {
    if n == 0 then x else f(Iterate(f, x, n - 1))
  }

  function Hops(e: Error, n: nat, display: TonicStatus -> Text): Error {
    Iterate(x => Hop(x, display), e, n)
  }

  lemma {:induction false} IterateKeeps<T(!new)>(f: T -> T, x: T, n: nat, keeps: (T, nat) -> bool)
    requires keeps(x, 0) && forall y, i: nat :: keeps(y, i) ==> keeps(f(y), i + 1)
    ensures keeps(Iterate(f, x, n), n)
  {
    if n > 0 { IterateKeeps(f, x, n - 1, keeps); }
  }

  lemma HopWithDetails(e: Error, display: TonicStatus -> Text)
    requires e.details != [] && ShortError(e)
    ensures Hop(e, display) == Error(e.code, [JoinMessages(e.messages)], e.details)
  {
    DecodeEncodeStatus(ToRpc(e));
    TrailerNotEmpty(ToRpc(e));
    ErrorRoundTrip(e);
  }

  lemma HopWithoutDetails(e: Error, display: TonicStatus -> Text)
    requires e.details == []
    ensures Hop(e, display) == NewError(e.code, display(TonicStatus(e.code, JoinMessages(e.messages), [])))
  {
  }

  /** With details, one hop joins the messages, all of them in order with " : " between, and no further
      hop changes anything. */
  lemma DetailsSettleAfterOneHop(e: Error, n: nat, display: TonicStatus -> Text)
    requires e.details != [] && ShortError(e)
    ensures Hops(e, n, display) == if n == 0 then e else Error(e.code, [JoinMessages(e.messages)], e.details)
    ensures n > 0 ==> Spells(Hops(e, n, display).messages[0], e.messages)
  {
    JoinedSpells(e.messages);
    var joined := Error(e.code, [JoinMessages(e.messages)], e.details);
    HopWithDetails(e, display);
    HopWithDetails(joined, display);
    IterateKeeps(x => Hop(x, display), e, n, (x, i) => x == if i == 0 then e else joined);
  }

  /** One hop without details keeps the code, adds no details and makes the message longer. */
  ghost predicate Grows(e: Error, f: Error) {
    && f.code == e.code && f.details == []
    && |JoinMessages(f.messages)| > |JoinMessages(e.messages)|
  }

  /** tonic's rendering of a status quotes the message along with the code. */
  ghost predicate Quotes(display: TonicStatus -> Text) {
    forall s :: |display(s)| > |s.message|
  }

  lemma HopGrows(e: Error, display: TonicStatus -> Text)
    requires e.details == []
    ensures Hop(e, display).code == e.code && Hop(e, display).details == []
    ensures Quotes(display) ==> Grows(e, Hop(e, display))
  {
    HopWithoutDetails(e, display);
    var s := TonicStatus(e.code, JoinMessages(e.messages), []);
    assert Quotes(display) ==> |display(s)| > |s.message|;
  }

  /** After `n` hops from `e`, which has no details. */
  ghost predicate Plain(e: Error, n: nat, x: Error, growing: bool) {
    && x.code == e.code && x.details == []
    && (growing ==> |JoinMessages(x.messages)| >= |JoinMessages(e.messages)| + n)
  }

  lemma PlainHops(e: Error, n: nat, display: TonicStatus -> Text)
    requires e.details == []
    ensures Plain(e, n, Hops(e, n, display), Quotes(display))
  {
    var growing := Quotes(display);
    forall x, i: nat | Plain(e, i, x, growing) ensures Plain(e, i + 1, Hop(x, display), growing) {
      HopGrows(x, display);
    }
    IterateKeeps(x => Hop(x, display), e, n, (x, i) => Plain(e, i, x, growing));
  }

  /** Any number of hops keeps the code and the details. */
  lemma HopsKeepCodeAndDetails(e: Error, n: nat, display: TonicStatus -> Text)
    requires ShortError(e)
    ensures Hops(e, n, display).code == e.code && Hops(e, n, display).details == e.details
  {
    if e.details == [] {
      PlainHops(e, n, display);
    } else {
      DetailsSettleAfterOneHop(e, n, display);
    }
  }

  /** Without details, the message grows at every hop. */
  lemma MessageGrowsWithoutDetails(e: Error, n: nat, display: TonicStatus -> Text)
    requires e.details == [] && Quotes(display)
    ensures |JoinMessages(Hops(e, n, display).messages)| >= |JoinMessages(e.messages)| + n
  {
    PlainHops(e, n, display);
  }

  /** For any rendering: an error is settled after one hop if and only if it carries details, or the
      rendering of the text it has by then is that very text. */
  lemma SettledIff(e: Error, display: TonicStatus -> Text)
    requires ShortError(e)
    ensures
      var text := display(TonicStatus(e.code, JoinMessages(e.messages), []));
      Hops(e, 2, display) == Hops(e, 1, display) <==>
      e.details != [] || display(TonicStatus(e.code, text, [])) == text
  {
    if e.details != [] {
      DetailsSettleAfterOneHop(e, 1, display);
      DetailsSettleAfterOneHop(e, 2, display);
    } else {
      var once := Hop(e, display);
      HopWithoutDetails(e, display);
      HopWithoutDetails(once, display);
      TwoHops(e, display);
    }
  }

  lemma TwoHops(e: Error, display: TonicStatus -> Text)
    ensures Hops(e, 1, display) == Hop(e, display) && Hops(e, 2, display) == Hop(Hop(e, display), display)
  {
    var f := x => Hop(x, display);
    assert Iterate(f, e, 0) == e;
    assert Iterate(f, e, 1) == f(e);
    assert Iterate(f, e, 2) == f(f(e));
  }

  /** So with a rendering that quotes its message, it is settled exactly when it carries details. */
  lemma SettledIffDetails(e: Error, display: TonicStatus -> Text)
    requires ShortError(e) && Quotes(display)
    ensures Hops(e, 2, display) == Hops(e, 1, display) <==> e.details != []
  {
    SettledIff(e, display);
    var text := display(TonicStatus(e.code, JoinMessages(e.messages), []));
    assert |display(TonicStatus(e.code, text, []))| > |text|;
  }
}

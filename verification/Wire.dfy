/** The protobuf wire format that the legacy header codec is built on: base-128 varints, tags and
    the five kinds of field (Protocol Buffers Encoding, "Base 128 Varints" and "Message Structure"),
    consumed the way Go's protowire package does. */
module Wire {
  import opened Basics

  datatype WireError = Truncated | BadFieldNumber | Overflow | Reserved | BadEndGroup | TooDeep

  /** A consumed value and the number of bytes it took. */
  datatype Consumed<+T> = Got(value: T, size: nat) | Bad(error: WireError)

  const VARINT := 0
  const FIXED64 := 1
  const BYTES := 2
  const START_GROUP := 3
  const END_GROUP := 4
  const FIXED32 := 5

  /** protowire.DefaultRecursionLimit */
  const RECURSION_LIMIT := 10000

  const MAX_INT32: nat := 0x7fff_ffff

  function AppendVarint(v: nat): (b: Bytes)
    ensures |b| >= 1
  {
    if v < 128 then [v] else [v % 128 + 128] + AppendVarint(v / 128)
  }

  /** Consumes the varint whose byte number `i` is next; the tenth byte may only be 0 or 1. */
  function ConsumeVarintAt(b: Bytes, i: nat): (r: Consumed<nat>)
    ensures r.Got? ==> 1 <= r.size <= |b|
  {
    if |b| == 0 then Bad(Truncated)
    else if i == 9 then (if b[0] < 2 then Got(b[0], 1) else Bad(Overflow))
    else if b[0] < 128 then Got(b[0], 1)
    else match ConsumeVarintAt(b[1..], i + 1)
         case Got(v, n) => Got(b[0] - 128 + 128 * v, n + 1)
         case Bad(e) => Bad(e)
  }

  function ConsumeVarint(b: Bytes): (r: Consumed<nat>)
    ensures r.Got? ==> 1 <= r.size <= |b|
  {
    ConsumeVarintAt(b, 0)
  }

  /** Values below this bound fit in the bytes from number `i` on. */
  function Cap(i: nat): nat
    decreases 9 - i
  {
    if i >= 9 then 2 else 128 * Cap(i + 1)
  }

  lemma {:induction false} VarintRoundTripAt(v: nat, i: nat, rest: Bytes)
    requires i <= 9 && v < Cap(i)
    ensures ConsumeVarintAt(AppendVarint(v) + rest, i) == Got(v, |AppendVarint(v)|)
    decreases v
  {
    var b := AppendVarint(v) + rest;
    if v >= 128 {
      assert b[1..] == AppendVarint(v / 128) + rest;
      VarintRoundTripAt(v / 128, i + 1, rest);
    }
  }

  lemma CapIs64Bits()
    ensures Cap(0) == U64
  {
    assert Cap(9) == 2 && Cap(8) == 0x100 && Cap(7) == 0x8000 && Cap(6) == 0x40_0000;
    assert Cap(5) == 0x2000_0000 && Cap(4) == 0x10_0000_0000 && Cap(3) == 0x800_0000_0000;
    assert Cap(2) == 0x4_0000_0000_0000 && Cap(1) == 0x200_0000_0000_0000;
  }

  lemma VarintRoundTrip(v: nat, rest: Bytes)
    requires v < U64
    ensures ConsumeVarint(AppendVarint(v) + rest) == Got(v, |AppendVarint(v)|)
  {
    CapIs64Bits();
    VarintRoundTripAt(v, 0, rest);
  }

  datatype Tag = Tag(num: nat, typ: nat)

  function AppendTag(num: nat, typ: nat): Bytes {
    AppendVarint(num * 8 + typ)
  }

  function ConsumeTag(b: Bytes): (r: Consumed<Tag>)
    ensures r.Got? ==> 1 <= r.size <= |b|
  {
    match ConsumeVarint(b)
    case Bad(e) => Bad(e)
    case Got(v, n) =>
      if v / 8 > MAX_INT32 || v / 8 < 1 then Bad(BadFieldNumber) else Got(Tag(v / 8, v % 8), n)
  }

  lemma TagRoundTrip(num: nat, typ: nat, rest: Bytes)
    requires 1 <= num <= MAX_INT32 && typ < 8
    ensures ConsumeTag(AppendTag(num, typ) + rest) == Got(Tag(num, typ), |AppendTag(num, typ)|)
  {
    VarintRoundTrip(num * 8 + typ, rest);
  }

  function ConsumeBytes(b: Bytes): (r: Consumed<Bytes>)
    ensures r.Got? ==> 1 <= r.size <= |b|
  {
    match ConsumeVarint(b)
    case Bad(e) => Bad(e)
    case Got(m, n) => if m > |b| - n then Bad(Truncated) else Got(b[n..n + m], n + m)
  }

  /** Size of the value of a field whose tag has been consumed. */
  function ConsumeFieldValue(num: nat, typ: nat, b: Bytes, depth: int): (r: Consumed<()>)
    ensures r.Got? ==> r.size <= |b|
    decreases |b|, 1
  {
    if typ == VARINT then
      match ConsumeVarint(b) case Got(_, n) => Got((), n) case Bad(e) => Bad(e)
    else if typ == FIXED32 then (if |b| < 4 then Bad(Truncated) else Got((), 4))
    else if typ == FIXED64 then (if |b| < 8 then Bad(Truncated) else Got((), 8))
    else if typ == BYTES then
      match ConsumeBytes(b) case Got(_, n) => Got((), n) case Bad(e) => Bad(e)
    else if typ == START_GROUP then (if depth < 0 then Bad(TooDeep) else ConsumeGroup(num, b, depth))
    else if typ == END_GROUP then Bad(BadEndGroup)
    else Bad(Reserved)
  }

  /** The fields of a group up to and including its end tag. */
  function ConsumeGroup(num: nat, b: Bytes, depth: int): (r: Consumed<()>)
    ensures r.Got? ==> r.size <= |b|
    decreases |b|, 0
  {
    match ConsumeTag(b)
    case Bad(e) => Bad(e)
    case Got(tag, n) =>
      if tag.typ == END_GROUP then (if tag.num == num then Got((), n) else Bad(BadEndGroup))
      else
        match ConsumeFieldValue(tag.num, tag.typ, b[n..], depth - 1)
        case Bad(e) => Bad(e)
        case Got(_, m) =>
          match ConsumeGroup(num, b[n + m..], depth)
          case Bad(e) => Bad(e)
          case Got(_, k) => Got((), n + m + k)
  }

  // ---------------------------------------------------------------- well-formed fields

  datatype Field =
    | VarintField(num: nat, v: nat)
    | Fixed32Field(num: nat, b4: Bytes)
    | Fixed64Field(num: nat, b8: Bytes)
    | BytesField(num: nat, bytes: Bytes)
    | GroupField(num: nat, fields: seq<Field>)

  /** `f` can be written, and read back with `depth` levels of groups left. */
  ghost predicate WellFormed(f: Field, depth: int)
    decreases f, 1
  {
    && 1 <= f.num <= MAX_INT32
    && match f
       case VarintField(_, v) => v < U64
       case Fixed32Field(_, b) => |b| == 4
       case Fixed64Field(_, b) => |b| == 8
       case BytesField(_, b) => |b| < U64
       case GroupField(_, fs) => depth >= 0 && AllWellFormed(fs, depth - 1)
  }

  ghost predicate AllWellFormed(fs: seq<Field>, depth: int)
    decreases fs, 0
  {
    fs == [] || (WellFormed(fs[0], depth) && AllWellFormed(fs[1..], depth))
  }

  function TypeOf(f: Field): nat {
    match f
    case VarintField(_, _) => VARINT
    case Fixed32Field(_, _) => FIXED32
    case Fixed64Field(_, _) => FIXED64
    case BytesField(_, _) => BYTES
    case GroupField(_, _) => START_GROUP
  }

  function Payload(f: Field): Bytes
    decreases f, 0
  {
    match f
    case VarintField(_, v) => AppendVarint(v)
    case Fixed32Field(_, b) => b
    case Fixed64Field(_, b) => b
    case BytesField(_, b) => AppendVarint(|b|) + b
    case GroupField(num, fs) => EncodeAll(fs) + AppendTag(num, END_GROUP)
  }

  function Encode(f: Field): (b: Bytes)
    ensures |b| >= 1
    decreases f, 1
  {
    AppendTag(f.num, TypeOf(f)) + Payload(f)
  }

  function EncodeAll(fs: seq<Field>): Bytes
    decreases fs, 0
  {
    if fs == [] then [] else Encode(fs[0]) + EncodeAll(fs[1..])
  }

  lemma {:induction false} EncodeAllAppend(a: seq<Field>, b: seq<Field>)
    ensures EncodeAll(a + b) == EncodeAll(a) + EncodeAll(b)
  {
    if a == [] {
      assert a + b == b;
    } else {
      assert (a + b)[0] == a[0] && (a + b)[1..] == a[1..] + b;
      EncodeAllAppend(a[1..], b);
    }
  }

  lemma EncodeOne(f: Field)
    ensures EncodeAll([f]) == Encode(f) == AppendTag(f.num, TypeOf(f)) + Payload(f)
  {
    assert [f][1..] == [];
    assert Encode(f) + [] == Encode(f);
  }

  lemma BytesRoundTrip(b: Bytes, rest: Bytes)
    requires |b| < U64
    ensures ConsumeBytes(AppendVarint(|b|) + b + rest) == Got(b, |AppendVarint(|b|)| + |b|)
  {
    assert AppendVarint(|b|) + b + rest == AppendVarint(|b|) + (b + rest);
    VarintRoundTrip(|b|, b + rest);
  }

  /** A written tag followed by anything is read back, leaving the rest. */
  lemma TagThen(num: nat, typ: nat, tail: Bytes)
    requires 1 <= num <= MAX_INT32 && typ < 8
    ensures
      var b := AppendTag(num, typ) + tail;
      var n := |AppendTag(num, typ)|;
      ConsumeTag(b) == Got(Tag(num, typ), n) && b[n..] == tail
  {
    TagRoundTrip(num, typ, tail);
  }

  /** The value of every well-formed field is consumed exactly, whatever follows it. */
  lemma {:induction false} FieldValueExact(f: Field, rest: Bytes, depth: int)
    requires WellFormed(f, depth)
    ensures ConsumeFieldValue(f.num, TypeOf(f), Payload(f) + rest, depth) == Got((), |Payload(f)|)
    decreases f, 1
  {
    match f
    case VarintField(_, v) => VarintRoundTrip(v, rest);
    case Fixed32Field(_, b) =>
    case Fixed64Field(_, b) =>
    case BytesField(_, b) => BytesRoundTrip(b, rest);
    case GroupField(num, fs) =>
      assert Payload(f) + rest == EncodeAll(fs) + (AppendTag(num, END_GROUP) + rest);
      GroupExact(num, fs, rest, depth);
  }

  lemma {:induction false} GroupExact(num: nat, fs: seq<Field>, rest: Bytes, depth: int)
    requires 1 <= num <= MAX_INT32 && AllWellFormed(fs, depth - 1)
    ensures ConsumeGroup(num, EncodeAll(fs) + (AppendTag(num, END_GROUP) + rest), depth)
            == Got((), |EncodeAll(fs)| + |AppendTag(num, END_GROUP)|)
    decreases fs, 0
  {
    var end := AppendTag(num, END_GROUP) + rest;
    if fs == [] {
      assert EncodeAll(fs) + end == end;
      TagThen(num, END_GROUP, rest);
    } else {
      var f := fs[0];
      var tail := EncodeAll(fs[1..]) + end;
      assert EncodeAll(fs) + end == Encode(f) + tail;
      FieldThen(f, tail, depth - 1);
      GroupExact(num, fs[1..], rest, depth);
    }
  }

  /** A written field followed by anything is consumed exactly. */
  lemma {:induction false} FieldThen(f: Field, tail: Bytes, depth: int)
    requires WellFormed(f, depth)
    ensures
      var b := Encode(f) + tail;
      var n := |AppendTag(f.num, TypeOf(f))|;
      && n <= |b| && ConsumeTag(b) == Got(Tag(f.num, TypeOf(f)), n)
      && ConsumeFieldValue(f.num, TypeOf(f), b[n..], depth) == Got((), |Payload(f)|)
      && n + |Payload(f)| <= |b| && b[n + |Payload(f)|..] == tail
    decreases f, 2
  {
    assert Encode(f) + tail == AppendTag(f.num, TypeOf(f)) + (Payload(f) + tail);
    TagThen(f.num, TypeOf(f), Payload(f) + tail);
    FieldValueExact(f, tail, depth);
  }
}

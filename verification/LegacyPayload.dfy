/** The full legacy header payload (marshalLegacyHeader) and its reading back through
    proto.Unmarshal and Header.FromProto. */
module LegacyPayload {
  import opened Basics
  import opened Wire
  import opened Chain
  import opened LegacyHeader

  /** Go strings are bytes; protobuf strings have to be valid UTF-8. */
  datatype Text = Text(enc: string -> Bytes, dec: Bytes -> Option<string>)

  ghost predicate TextLaws(t: Text) {
    t.enc("") == [] && forall s :: t.dec(t.enc(s)) == Some(s)
  }

  datatype FullHeader = FullHeader(header: Header, legacy: Option<Legacy>)

  const ZeroHash: Bytes :=
    [0, 0, 0, 0, 0, 0, 0, 0, 0, 0, 0, 0, 0, 0, 0, 0, 0, 0, 0, 0, 0, 0, 0, 0, 0, 0, 0, 0, 0, 0, 0, 0]

  /** ApplyLegacyDefaults on a clone: an unset consensus hash becomes 32 zero bytes. */
  function WithDefaults(l: Option<Legacy>): Legacy {
    var l' := if l.None? then NoLegacy else l.value;
    if |l'.consensusHash| == 0 then l'.(consensusHash := ZeroHash) else l'
  }

  function Normalize(h: FullHeader): FullHeader {
    h.(legacy := Some(WithDefaults(h.legacy)))
  }

  function NonZero(num: nat, v: nat): seq<Field> {
    if v == 0 then [] else [VarintField(num, v)]
  }

  /** proto.Marshal of a Version message: zero values are not written. */
  function VersionFields(v: Version): seq<Field> {
    NonZero(1, v.blockVersion) + NonZero(2, v.app)
  }

  /** The hashes, the proposer and the chain ID, each written only when non-empty. */
  function ByteFields(h: Header, l: Legacy, t: Text): seq<(nat, Bytes)> {
    [(4, h.lastHeaderHash), (LAST_COMMIT_HASH, l.lastCommitHash), (6, h.dataHash),
     (CONSENSUS_HASH, l.consensusHash), (8, h.appHash), (LAST_RESULTS_HASH, l.lastResultsHash),
     (10, h.proposer), (11, h.validatorHash), (12, t.enc(h.chainId))]
  }

  function Optionals(pairs: seq<(nat, Bytes)>): seq<Field> {
    if pairs == [] then [] else Optional(pairs[0].0, pairs[0].1) + Optionals(pairs[1..])
  }

  function HeaderFields(h: FullHeader, t: Text): seq<Field> {
    [BytesField(1, EncodeAll(VersionFields(h.header.version))), VarintField(2, h.header.height),
     VarintField(3, h.header.time)]
    + Optionals(ByteFields(h.header, WithDefaults(h.legacy), t))
  }

  lemma {:induction false} OptionalsSnoc(pairs: seq<(nat, Bytes)>, p: (nat, Bytes))
    ensures Optionals(pairs + [p]) == Optionals(pairs) + Optional(p.0, p.1)
  {
    if pairs == [] {
      assert [p][1..] == [] && pairs + [p] == [p];
    } else {
      assert (pairs + [p])[0] == pairs[0] && (pairs + [p])[1..] == pairs[1..] + [p];
      OptionalsSnoc(pairs[1..], p);
    }
  }

  /** marshalLegacyHeader: appends field after field to the payload. */
  method MarshalLegacyHeader(h: FullHeader, t: Text) returns (payload: Bytes)
    ensures payload == EncodeAll(HeaderFields(h, t))
  {
    var l := WithDefaults(h.legacy);
    var versionBytes := EncodeAll(VersionFields(h.header.version));
    payload := AppendBytesField([], 1, versionBytes);
    AppendIsEncode([], [], 1, versionBytes);
    ghost var fs := [] + [BytesField(1, versionBytes)];
    payload := AppendVarintField(payload, 2, h.header.height, fs);
    fs := fs + [VarintField(2, h.header.height)];
    payload := AppendVarintField(payload, 3, h.header.time, fs);
    fs := fs + [VarintField(3, h.header.time)];
    var pairs := ByteFields(h.header, l, t);
    assert fs + Optionals(pairs[..0]) == fs;
    for i := 0 to |pairs|
      invariant payload == EncodeAll(fs + Optionals(pairs[..i]))
    {
      payload := AppendOptional(payload, pairs[i].0, pairs[i].1, fs + Optionals(pairs[..i]));
      OptionalsSnoc(pairs[..i], pairs[i]);
      assert pairs[..i + 1] == pairs[..i] + [pairs[i]];
      assert fs + Optionals(pairs[..i + 1]) == fs + Optionals(pairs[..i]) + Optional(pairs[i].0, pairs[i].1);
    }
    assert pairs[..|pairs|] == pairs;
    assert fs + Optionals(pairs) == HeaderFields(h, t);
  }

  method AppendVarintField(buf: Bytes, num: nat, v: nat, ghost fs: seq<Field>) returns (r: Bytes)
    requires buf == EncodeAll(fs)
    ensures r == EncodeAll(fs + [VarintField(num, v)])
  {
    r := buf + AppendTag(num, VARINT) + AppendVarint(v);
    var f := VarintField(num, v);
    EncodeAllAppend(fs, [f]);
    EncodeOne(f);
  }

  // ---------------------------------------------------------------- the bytes

  /** A length-delimited field that is left out when empty, after its tag byte. */
  function Present(tag: byte, value: Bytes): Bytes {
    if value == [] then [] else [tag] + AppendVarint(|value|) + value
  }

  function PresentAll(fields: seq<(byte, Bytes)>): Bytes {
    if fields == [] then [] else Present(fields[0].0, fields[0].1) + PresentAll(fields[1..])
  }

  function NonZeroBytes(tag: byte, v: nat): Bytes {
    if v == 0 then [] else [tag] + AppendVarint(v)
  }

  lemma OptionalBytes(num: nat, value: Bytes)
    requires num * 8 + 2 < 128
    ensures EncodeAll(Optional(num, value)) == Present(num * 8 + 2, value)
  {
    if |value| > 0 {
      EncodeOne(BytesField(num, value));
      assert AppendTag(num, BYTES) + (AppendVarint(|value|) + value) == [num * 8 + 2] + AppendVarint(|value|) + value;
    }
  }

  lemma {:induction false} OptionalsBytes(pairs: seq<(nat, Bytes)>, fields: seq<(byte, Bytes)>)
    requires |pairs| == |fields|
    requires forall i :: 0 <= i < |pairs| ==> fields[i].0 == pairs[i].0 * 8 + 2 < 128 && fields[i].1 == pairs[i].1
    ensures EncodeAll(Optionals(pairs)) == PresentAll(fields)
  {
    if pairs != [] {
      var num, value, more := pairs[0].0, pairs[0].1, fields[1..];
      assert fields[0] == (num * 8 + 2, value);
      OptionalBytes(num, value);
      forall i | 0 <= i < |more| ensures more[i].0 == pairs[1..][i].0 * 8 + 2 < 128 && more[i].1 == pairs[1..][i].1 {
        assert more[i] == fields[i + 1] && pairs[1..][i] == pairs[i + 1];
      }
      OptionalsBytes(pairs[1..], more);
      EncodeAllAppend(Optional(num, value), Optionals(pairs[1..]));
    }
  }

  lemma NonZeroIs(num: nat, v: nat)
    requires num * 8 < 128
    ensures EncodeAll(NonZero(num, v)) == NonZeroBytes(num * 8, v)
  {
    if v != 0 {
      EncodeOne(VarintField(num, v));
    }
  }

  lemma VersionBytes(v: Version)
    ensures EncodeAll(VersionFields(v)) == NonZeroBytes(0x08, v.blockVersion) + NonZeroBytes(0x10, v.app)
  {
    EncodeAllAppend(NonZero(1, v.blockVersion), NonZero(2, v.app));
    NonZeroIs(1, v.blockVersion);
    NonZeroIs(2, v.app);
  }

  /** The consensus hash that is written: 32 zero bytes when there is none. */
  function ConsensusHash(l: Option<Legacy>): (b: Bytes)
    ensures l.None? || l.value.consensusHash == [] ==> |b| == 32 && forall i :: 0 <= i < 32 ==> b[i] == 0
    ensures l.Some? && l.value.consensusHash != [] ==> b == l.value.consensusHash
  {
    WithDefaults(l).consensusHash
  }

  /** The payload byte by byte: version, height and time always, then the fields present in the order
      of their numbers, each after its tag. */
  lemma PayloadBytes(h: FullHeader, t: Text)
    ensures
      var version := NonZeroBytes(0x08, h.header.version.blockVersion) + NonZeroBytes(0x10, h.header.version.app);
      EncodeAll(HeaderFields(h, t)) ==
      [0x0a] + AppendVarint(|version|) + version + [0x10] + AppendVarint(h.header.height) + [0x18] + AppendVarint(h.header.time)
      + PresentAll([(0x22, h.header.lastHeaderHash), (0x2a, if h.legacy.Some? then h.legacy.value.lastCommitHash else []),
                    (0x32, h.header.dataHash), (0x3a, ConsensusHash(h.legacy)), (0x42, h.header.appHash),
                    (0x4a, if h.legacy.Some? then h.legacy.value.lastResultsHash else []), (0x52, h.header.proposer),
                    (0x5a, h.header.validatorHash), (0x62, t.enc(h.header.chainId))])
  {
    var l := WithDefaults(h.legacy);
    var pairs := ByteFields(h.header, l, t);
    OptionalsBytes(pairs, [(0x22, h.header.lastHeaderHash), (0x2a, l.lastCommitHash), (0x32, h.header.dataHash),
                           (0x3a, l.consensusHash), (0x42, h.header.appHash), (0x4a, l.lastResultsHash),
                           (0x52, h.header.proposer), (0x5a, h.header.validatorHash), (0x62, t.enc(h.header.chainId))]);
    VersionBytes(h.header.version);
    LeadingBytes(EncodeAll(VersionFields(h.header.version)), h.header.height, h.header.time, Optionals(pairs));
  }

  lemma LeadingBytes(version: Bytes, height: nat, time: nat, rest: seq<Field>)
    ensures EncodeAll([BytesField(1, version), VarintField(2, height), VarintField(3, time)] + rest)
            == [0x0a] + AppendVarint(|version|) + version + [0x10] + AppendVarint(height) + [0x18] + AppendVarint(time)
               + EncodeAll(rest)
  {
    var a, b, c := BytesField(1, version), VarintField(2, height), VarintField(3, time);
    EncodeOne(a);
    EncodeOne(b);
    EncodeOne(c);
    EncodeAllAppend([a] + [b] + [c], rest);
    EncodeAllAppend([a] + [b], [c]);
    EncodeAllAppend([a], [b]);
    assert [a, b, c] == [a] + [b] + [c];
    assert Encode(a) == [0x0a] + AppendVarint(|version|) + version;
    assert Encode(b) == [0x10] + AppendVarint(height) && Encode(c) == [0x18] + AppendVarint(time);
    ThreeParts(Encode(a), [0x10], AppendVarint(height), [0x18], AppendVarint(time), EncodeAll(rest));
  }

  lemma ThreeParts(a: Bytes, s: Bytes, b: Bytes, u: Bytes, c: Bytes, rest: Bytes)
    ensures a + (s + b) + (u + c) + rest == a + s + b + u + c + rest
  {
  }

  // ---------------------------------------------------------------- reading back

  /** protobuf's largest field number; the generated parsers refuse greater ones. */
  const MAX_FIELD_NUMBER: nat := 0x1fff_ffff

  datatype ParseError = BadWire(cause: WireError) | BadText | BadLegacy(inner: DecodeError)

  /** A parsed pb.Header; `chainId` is kept decoded and unknown fields as their raw bytes. */
  datatype Proto = Proto(
    version: Version, height: nat, time: nat, lastHeaderHash: Bytes, dataHash: Bytes, appHash: Bytes,
    proposer: Bytes, validatorHash: Bytes, chainId: string, unknown: Bytes)

  const EmptyProto := Proto(Version(0, 0), 0, 0, [], [], [], [], [], "", [])

  function UnmarshalVersion(b: Bytes, v: Version): Result<Version, ParseError>
    decreases |b|
  {
    if |b| == 0 then Ok(v)
    else
      var tag := ConsumeTag(b);
      if tag.Bad? then Err(BadWire(tag.error))
      else if tag.value.num > MAX_FIELD_NUMBER then Err(BadWire(BadFieldNumber))
      else
        var rest := b[tag.size..];
        if tag.value.typ == VARINT && (tag.value.num == 1 || tag.value.num == 2) then
          var x := ConsumeVarint(rest);
          if x.Bad? then Err(BadWire(x.error))
          else UnmarshalVersion(
                 rest[x.size..], if tag.value.num == 1 then v.(blockVersion := x.value) else v.(app := x.value))
        else
          var skip := ConsumeFieldValue(tag.value.num, tag.value.typ, rest, RECURSION_LIMIT);
          if skip.Bad? then Err(BadWire(skip.error)) else UnmarshalVersion(rest[skip.size..], v)
  }

  predicate KnownBytes(num: nat) {
    num in {1, 4, 6, 8, 10, 11, 12}
  }

  /** Setting a known length-delimited field. */
  function SetBytes(p: Proto, num: nat, value: Bytes, t: Text): Result<Proto, ParseError>
    requires KnownBytes(num)
  {
    if num == 1 then
      var v := UnmarshalVersion(value, p.version);
      if v.Err? then Err(v.error) else Ok(p.(version := v.value))
    else if num == 4 then Ok(p.(lastHeaderHash := value))
    else if num == 6 then Ok(p.(dataHash := value))
    else if num == 8 then Ok(p.(appHash := value))
    else if num == 10 then Ok(p.(proposer := value))
    else if num == 11 then Ok(p.(validatorHash := value))
    else
      var s := t.dec(value);
      if s.None? then Err(BadText) else Ok(p.(chainId := s.value))
  }

  /** One turn of the parse loop: the rest of the input and the message so far. */
  function UnmarshalStep(b: Bytes, p: Proto, t: Text): (r: Result<(Bytes, Proto), ParseError>)
    requires |b| > 0
    ensures r.Ok? ==> |r.value.0| < |b|
  {
    var tag := ConsumeTag(b);
    if tag.Bad? then Err(BadWire(tag.error))
    else if tag.value.num > MAX_FIELD_NUMBER then Err(BadWire(BadFieldNumber))
    else
      var num, typ, rest := tag.value.num, tag.value.typ, b[tag.size..];
      if typ == VARINT && (num == 2 || num == 3) then
        var x := ConsumeVarint(rest);
        if x.Bad? then Err(BadWire(x.error))
        else Ok((rest[x.size..], if num == 2 then p.(height := x.value) else p.(time := x.value)))
      else if typ == BYTES && KnownBytes(num) then
        var value := ConsumeBytes(rest);
        if value.Bad? then Err(BadWire(value.error))
        else
          var q := SetBytes(p, num, value.value, t);
          if q.Err? then Err(q.error) else Ok((rest[value.size..], q.value))
      else
        var skip := ConsumeFieldValue(num, typ, rest, RECURSION_LIMIT);
        if skip.Bad? then Err(BadWire(skip.error))
        else Ok((rest[skip.size..], p.(unknown := p.unknown + b[..tag.size + skip.size])))
  }

  function UnmarshalHeader(b: Bytes, p: Proto, t: Text): Result<Proto, ParseError>
    decreases |b|
  {
    if |b| == 0 then Ok(p)
    else
      var r := UnmarshalStep(b, p, t);
      if r.Err? then Err(r.error) else UnmarshalHeader(r.value.0, r.value.1, t)
  }

  /** Header.UnmarshalBinary: parse, then FromProto with the legacy fields decoded. */
  function ParseHeader(b: Bytes, t: Text): Result<FullHeader, ParseError> {
    var r := UnmarshalHeader(b, EmptyProto, t);
    if r.Err? then Err(r.error)
    else
      var p := r.value;
      var l := DecodeLegacy(p.unknown);
      if l.Err? then Err(BadLegacy(l.error))
      else Ok(FullHeader(
        Header(p.version, p.chainId, p.height, p.time, p.lastHeaderHash, p.dataHash, p.appHash, p.validatorHash, p.proposer),
        l.value))
  }

  // ---------------------------------------------------------------- parsing is a fold

  /** What parsing one field does. */
  function ApplyField(p: Proto, f: Field, t: Text): Result<Proto, ParseError> {
    if f.num > MAX_FIELD_NUMBER then Err(BadWire(BadFieldNumber))
    else if f.VarintField? && (f.num == 2 || f.num == 3) then
      Ok(if f.num == 2 then p.(height := f.v) else p.(time := f.v))
    else if f.BytesField? && KnownBytes(f.num) then SetBytes(p, f.num, f.bytes, t)
    else Ok(p.(unknown := p.unknown + Encode(f)))
  }

  function FoldFields(p: Proto, fs: seq<Field>, t: Text): Result<Proto, ParseError>
    decreases fs
  {
    if fs == [] then Ok(p)
    else
      var r := ApplyField(p, fs[0], t);
      if r.Err? then Err(r.error) else FoldFields(r.value, fs[1..], t)
  }

  lemma ParseOneField(f: Field, tail: Bytes, p: Proto, t: Text)
    requires WellFormed(f, RECURSION_LIMIT)
    ensures |Encode(f) + tail| > 0
    ensures
      var r := ApplyField(p, f, t);
      UnmarshalStep(Encode(f) + tail, p, t) == if r.Err? then Err(r.error) else Ok((tail, r.value))
  {
    var b := Encode(f) + tail;
    var n := |AppendTag(f.num, TypeOf(f))|;
    assert b == AppendTag(f.num, TypeOf(f)) + (Payload(f) + tail);
    TagThen(f.num, TypeOf(f), Payload(f) + tail);
    assert (Payload(f) + tail)[|Payload(f)|..] == tail;
    assert b[..n + |Payload(f)|] == Encode(f);
    if f.num > MAX_FIELD_NUMBER {
    } else if f.VarintField? && (f.num == 2 || f.num == 3) {
      VarintRoundTrip(f.v, tail);
    } else if f.BytesField? && KnownBytes(f.num) {
      BytesRoundTrip(f.bytes, tail);
    } else {
      FieldValueExact(f, tail, RECURSION_LIMIT);
    }
  }

  /** Parsing the encoding of any well-formed field list is the fold over the list, which refuses
      field numbers above protobuf's largest. */
  lemma {:induction false} ParseIsFold(fs: seq<Field>, p: Proto, t: Text)
    requires AllWellFormed(fs, RECURSION_LIMIT)
    ensures UnmarshalHeader(EncodeAll(fs), p, t) == FoldFields(p, fs, t)
    decreases fs
  {
    if fs != [] {
      ParseOneField(fs[0], EncodeAll(fs[1..]), p, t);
      var r := ApplyField(p, fs[0], t);
      if r.Ok? {
        ParseIsFold(fs[1..], r.value, t);
      }
    }
  }

  lemma {:induction false} VersionRoundTrip(v: Version)
    requires v.blockVersion < U64 && v.app < U64
    ensures UnmarshalVersion(EncodeAll(VersionFields(v)), Version(0, 0)) == Ok(v)
  {
    var b, a := NonZero(1, v.blockVersion), NonZero(2, v.app);
    EncodeAllAppend(b, a);
    VersionField(1, v.blockVersion, EncodeAll(a), Version(0, 0));
    VersionField(2, v.app, [], Version(v.blockVersion, 0));
    assert EncodeAll(a) + [] == EncodeAll(a);
  }

  lemma VersionField(num: nat, x: nat, tail: Bytes, v: Version)
    requires (num == 1 && v.blockVersion == 0) || (num == 2 && v.app == 0)
    requires x < U64
    ensures UnmarshalVersion(EncodeAll(NonZero(num, x)) + tail, v)
            == UnmarshalVersion(tail, if num == 1 then v.(blockVersion := x) else v.(app := x))
  {
    if x != 0 {
      var f := VarintField(num, x);
      EncodeOne(f);
      var b := EncodeAll([f]) + tail;
      assert b == AppendTag(num, VARINT) + (AppendVarint(x) + tail);
      TagThen(num, VARINT, AppendVarint(x) + tail);
      VarintRoundTrip(x, tail);
      assert (AppendVarint(x) + tail)[|AppendVarint(x)|..] == tail;
    } else {
      assert [] + tail == tail;
    }
  }

  // ---------------------------------------------------------------- round trip of the payload

  /** Numbers and lengths are 64-bit. */
  ghost predicate Encodable(h: FullHeader, t: Text) {
    && h.header.version.blockVersion < U64 && h.header.version.app < U64
    && h.header.height < U64 && h.header.time < U64
    && forall i :: 0 <= i < 9 ==> |ByteFields(h.header, WithDefaults(h.legacy), t)[i].1| < U64
  }

  lemma {:induction false} OptionalsWellFormed(pairs: seq<(nat, Bytes)>)
    requires forall i :: 0 <= i < |pairs| ==> 1 <= pairs[i].0 <= MAX_INT32 && |pairs[i].1| < U64
    ensures AllWellFormed(Optionals(pairs), RECURSION_LIMIT)
  {
    if pairs != [] {
      OptionalsWellFormed(pairs[1..]);
      var o, rest := Optional(pairs[0].0, pairs[0].1), Optionals(pairs[1..]);
      if o != [] {
        assert (o + rest)[1..] == rest;
      } else {
        assert o + rest == rest;
      }
    }
  }

  lemma VarintLength(v: nat)
    requires v < 128 * 128
    ensures |AppendVarint(v)| <= 2
  {
  }

  lemma VersionSize(v: Version)
    requires v.blockVersion < U64 && v.app < U64
    ensures |EncodeAll(VersionFields(v))| < U64
  {
    EncodeAllAppend(NonZero(1, v.blockVersion), NonZero(2, v.app));
    NonZeroSize(1, v.blockVersion);
    NonZeroSize(2, v.app);
  }

  lemma NonZeroSize(num: nat, x: nat)
    requires 1 <= num <= 2 && x < U64
    ensures |EncodeAll(NonZero(num, x))| <= 11
  {
    if x != 0 {
      var f := VarintField(num, x);
      EncodeOne(f);
      CapIs64Bits();
      VarintSizeAt(x, 0);
    }
  }

  lemma {:induction false} VarintSizeAt(v: nat, i: nat)
    requires i <= 9 && v < Cap(i)
    ensures |AppendVarint(v)| <= 10 - i
    decreases v
  {
    if v >= 128 {
      VarintSizeAt(v / 128, i + 1);
    }
  }

  lemma HeaderFieldsWellFormed(h: FullHeader, t: Text)
    requires Encodable(h, t)
    ensures AllWellFormed(HeaderFields(h, t), RECURSION_LIMIT)
  {
    var pairs := ByteFields(h.header, WithDefaults(h.legacy), t);
    OptionalsWellFormed(pairs);
    VersionSize(h.header.version);
    var a := BytesField(1, EncodeAll(VersionFields(h.header.version)));
    var b, c := VarintField(2, h.header.height), VarintField(3, h.header.time);
    var rest := Optionals(pairs);
    assert ([a, b, c] + rest)[1..] == [b, c] + rest;
    assert ([b, c] + rest)[1..] == [c] + rest;
    assert ([c] + rest)[1..] == rest;
    assert AllWellFormed([c] + rest, RECURSION_LIMIT);
    assert AllWellFormed([b, c] + rest, RECURSION_LIMIT);
  }

  /** A known byte field, written or left out because it is empty, reads back as its value. */
  lemma FoldKnown(p: Proto, num: nat, value: Bytes, rest: seq<Field>, t: Text, p': Proto)
    requires num in {4, 6, 8, 10, 11, 12} && SetBytes(p, num, value, t) == Ok(p')
    requires value == [] ==> p' == p
    ensures FoldFields(p, Optional(num, value) + rest, t) == FoldFields(p', rest, t)
  {
    if |value| > 0 {
      assert (Optional(num, value) + rest)[1..] == rest;
    } else {
      assert Optional(num, value) + rest == rest;
    }
  }

  /** A legacy field ends up among the unknown bytes. */
  lemma FoldUnknown(p: Proto, num: nat, value: Bytes, rest: seq<Field>, t: Text)
    requires IsLegacyNumber(num)
    ensures FoldFields(p, Optional(num, value) + rest, t)
            == FoldFields(p.(unknown := p.unknown + EncodeAll(Optional(num, value))), rest, t)
  {
    if |value| > 0 {
      var f := BytesField(num, value);
      assert (Optional(num, value) + rest)[1..] == rest;
      EncodeOne(f);
    } else {
      assert Optional(num, value) + rest == rest;
      assert p.unknown + [] == p.unknown;
    }
  }

  function Parsed(h: Header, unknown: Bytes): Proto {
    Proto(h.version, h.height, h.time, h.lastHeaderHash, h.dataHash, h.appHash, h.proposer, h.validatorHash, h.chainId, unknown)
  }

  lemma FoldByteFields(h: Header, l: Legacy, t: Text, p: Proto)
    requires TextLaws(t) && p == EmptyProto.(version := h.version, height := h.height, time := h.time)
    ensures FoldFields(p, Optionals(ByteFields(h, l, t)), t) == Ok(Parsed(h, EncodeAll(LegacyFields(l))))
  {
    var s := ByteFields(h, l, t);
    var o4, o5, o6, o7 := Optionals(s[1..]), Optionals(s[2..]), Optionals(s[3..]), Optionals(s[4..]);
    var o8, o9, o10, o11 := Optionals(s[5..]), Optionals(s[6..]), Optionals(s[7..]), Optionals(s[8..]);
    OptionalsUnfold(s);
    var p1 := p.(lastHeaderHash := h.lastHeaderHash);
    FoldKnown(p, 4, h.lastHeaderHash, o4, t, p1);
    var p2 := p1.(unknown := p1.unknown + EncodeAll(Optional(LAST_COMMIT_HASH, l.lastCommitHash)));
    FoldUnknown(p1, LAST_COMMIT_HASH, l.lastCommitHash, o5, t);
    var p3 := p2.(dataHash := h.dataHash);
    FoldKnown(p2, 6, h.dataHash, o6, t, p3);
    var p4 := p3.(unknown := p3.unknown + EncodeAll(Optional(CONSENSUS_HASH, l.consensusHash)));
    FoldUnknown(p3, CONSENSUS_HASH, l.consensusHash, o7, t);
    var p5 := p4.(appHash := h.appHash);
    FoldKnown(p4, 8, h.appHash, o8, t, p5);
    var p6 := p5.(unknown := p5.unknown + EncodeAll(Optional(LAST_RESULTS_HASH, l.lastResultsHash)));
    FoldUnknown(p5, LAST_RESULTS_HASH, l.lastResultsHash, o9, t);
    var p7 := p6.(proposer := h.proposer);
    FoldKnown(p6, 10, h.proposer, o10, t, p7);
    var p8 := p7.(validatorHash := h.validatorHash);
    FoldKnown(p7, 11, h.validatorHash, o11, t, p8);
    var p9 := p8.(chainId := h.chainId);
    EmptyText(h.chainId, t);
    FoldKnown(p8, 12, t.enc(h.chainId), [], t, p9);
    UnknownIsLegacy(l);
  }

  lemma EmptyText(s: string, t: Text)
    requires TextLaws(t)
    ensures t.enc(s) == [] ==> s == ""
  {
    assert t.dec(t.enc(s)) == Some(s) && t.dec(t.enc("")) == Some("");
  }

  lemma OptionalsUnfold(s: seq<(nat, Bytes)>)
    requires |s| == 9
    ensures forall i :: 0 <= i < 9 ==> Optionals(s[i..]) == Optional(s[i].0, s[i].1) + Optionals(s[i + 1..])
    ensures Optionals(s) == Optionals(s[0..]) && Optionals(s[9..]) == []
  {
    assert s[0..] == s && s[9..] == [];
    forall i | 0 <= i < 9 ensures Optionals(s[i..]) == Optional(s[i].0, s[i].1) + Optionals(s[i + 1..]) {
      assert s[i..][1..] == s[i + 1..];
    }
  }

  lemma UnknownIsLegacy(l: Legacy)
    ensures
      var a, b, c := EncodeAll(Optional(LAST_COMMIT_HASH, l.lastCommitHash)),
                     EncodeAll(Optional(CONSENSUS_HASH, l.consensusHash)),
                     EncodeAll(Optional(LAST_RESULTS_HASH, l.lastResultsHash));
      [] + a + b + c == EncodeAll(LegacyFields(l))
  {
    var a, b, c := Optional(LAST_COMMIT_HASH, l.lastCommitHash), Optional(CONSENSUS_HASH, l.consensusHash),
                   Optional(LAST_RESULTS_HASH, l.lastResultsHash);
    EncodeAllAppend(a, b);
    EncodeAllAppend(a + b, c);
  }

  lemma OptionalSize(num: nat, value: Bytes)
    requires IsLegacyNumber(num) && |value| <= MAX_LEGACY_HASH_SIZE
    ensures |EncodeAll(Optional(num, value))| <= 4 + MAX_LEGACY_HASH_SIZE
    ensures AllWellFormed(Optional(num, value), RECURSION_LIMIT)
    ensures Filter(IsLegacyField, Optional(num, value)) == Optional(num, value)
  {
    if |value| > 0 {
      var f := BytesField(num, value);
      EncodeOne(f);
      assert [f][1..] == [];
      VarintLength(|value|);
      VarintLength(num * 8 + BYTES);
      assert Optional(num, value) == [f] && IsLegacyField(f) && WellFormed(f, RECURSION_LIMIT);
      assert Filter(IsLegacyField, [f]) == [f] + Filter(IsLegacyField, []) == [f];
    }
  }

  lemma {:induction false} WellFormedAppend(a: seq<Field>, b: seq<Field>, depth: int)
    requires AllWellFormed(a, depth) && AllWellFormed(b, depth)
    ensures AllWellFormed(a + b, depth)
  {
    if a == [] {
      assert a + b == b;
    } else {
      assert (a + b)[0] == a[0] && (a + b)[1..] == a[1..] + b;
      WellFormedAppend(a[1..], b, depth);
    }
  }

  /** The three legacy fields always fit within the unknown-field limit. */
  lemma LegacyFieldsDecode(l: Legacy)
    requires SmallHashes(l)
    ensures DecodeLegacy(EncodeAll(LegacyFields(l))) == Ok(if IsZero(l) then None else Some(l))
  {
    var a, b, c := Optional(LAST_COMMIT_HASH, l.lastCommitHash), Optional(CONSENSUS_HASH, l.consensusHash),
                   Optional(LAST_RESULTS_HASH, l.lastResultsHash);
    OptionalSize(LAST_COMMIT_HASH, l.lastCommitHash);
    OptionalSize(CONSENSUS_HASH, l.consensusHash);
    OptionalSize(LAST_RESULTS_HASH, l.lastResultsHash);
    EncodeAllAppend(a, b);
    EncodeAllAppend(a + b, c);
    WellFormedAppend(a, b, RECURSION_LIMIT);
    WellFormedAppend(a + b, c, RECURSION_LIMIT);
    FilterAppend(IsLegacyField, a, b);
    FilterAppend(IsLegacyField, a + b, c);
    LegacyRoundTrip(l, LegacyFields(l));
  }

  /** The message itself is always read back, the legacy fields as unknown bytes. */
  lemma PayloadParses(h: FullHeader, t: Text)
    requires TextLaws(t) && Encodable(h, t)
    ensures UnmarshalHeader(EncodeAll(HeaderFields(h, t)), EmptyProto, t)
            == Ok(Parsed(h.header, EncodeAll(LegacyFields(WithDefaults(h.legacy)))))
  {
    HeaderFieldsWellFormed(h, t);
    ParseIsFold(HeaderFields(h, t), EmptyProto, t);
    FoldPrefix(h, t);
    var p := EmptyProto.(version := h.header.version, height := h.header.height, time := h.header.time);
    FoldByteFields(h.header, WithDefaults(h.legacy), t, p);
  }

  ghost predicate ShortHashes(l: Legacy) {
    |l.lastCommitHash| < U64 && |l.consensusHash| < U64 && |l.lastResultsHash| < U64
  }

  lemma HashesAreShort(h: FullHeader, t: Text)
    requires Encodable(h, t)
    ensures ShortHashes(WithDefaults(h.legacy))
  {
    var l := WithDefaults(h.legacy);
    var s := ByteFields(h.header, l, t);
    assert s[1].1 == l.lastCommitHash && s[3].1 == l.consensusHash && s[5].1 == l.lastResultsHash;
  }

  /** A hash above the limit is written, and refused on reading. */
  lemma OversizedRefused(l: Legacy)
    requires ShortHashes(l) && !SmallHashes(l)
    ensures DecodeLegacy(EncodeAll(LegacyFields(l))).Err?
  {
    var fs := LegacyFields(l);
    LegacyFieldsWellFormed(l);
    DecodeLegacyIsFold(fs);
    var i :| 0 <= i < |fs| && IsLegacyField(fs[i]) && |fs[i].bytes| > MAX_LEGACY_HASH_SIZE;
    OversizedFoldFails(fs, NoLegacy, i);
  }

  lemma LegacyFieldsWellFormed(l: Legacy)
    requires ShortHashes(l)
    ensures AllWellFormed(LegacyFields(l), RECURSION_LIMIT)
  {
    var a, b, c := Optional(LAST_COMMIT_HASH, l.lastCommitHash), Optional(CONSENSUS_HASH, l.consensusHash),
                   Optional(LAST_RESULTS_HASH, l.lastResultsHash);
    OptionalWellFormed(LAST_COMMIT_HASH, l.lastCommitHash);
    OptionalWellFormed(CONSENSUS_HASH, l.consensusHash);
    OptionalWellFormed(LAST_RESULTS_HASH, l.lastResultsHash);
    WellFormedAppend(a, b, RECURSION_LIMIT);
    WellFormedAppend(a + b, c, RECURSION_LIMIT);
  }

  lemma OptionalWellFormed(num: nat, value: Bytes)
    requires 1 <= num <= MAX_INT32 && |value| < U64
    ensures AllWellFormed(Optional(num, value), RECURSION_LIMIT)
  {
    if |value| > 0 {
      var f := BytesField(num, value);
      assert Optional(num, value) == [f] && [f][1..] == [] && AllWellFormed([], RECURSION_LIMIT);
      assert WellFormed(f, RECURSION_LIMIT);
    }
  }

  lemma {:induction false} OversizedFoldFails(fs: seq<Field>, l: Legacy, i: nat)
    requires i < |fs| && IsLegacyField(fs[i]) && |fs[i].bytes| > MAX_LEGACY_HASH_SIZE
    ensures FoldLegacy(fs, l).Err?
    decreases i
  {
    if i > 0 && !IsLegacyField(fs[0]) {
      OversizedFoldFails(fs[1..], l, i - 1);
    } else if i > 0 && |fs[0].bytes| <= MAX_LEGACY_HASH_SIZE {
      OversizedFoldFails(fs[1..], SetField(l, fs[0].num, fs[0].bytes), i - 1);
    }
  }

  /** Parsing the legacy payload recovers every header field if and only if the legacy hashes are
      within the decoder's limit; the legacy part reads back with its defaults, a missing consensus
      hash as 32 zero bytes. */
  lemma PayloadRoundTrip(h: FullHeader, t: Text)
    requires TextLaws(t) && Encodable(h, t)
    ensures ParseHeader(EncodeAll(HeaderFields(h, t)), t) == Ok(Normalize(h)) <==> SmallHashes(WithDefaults(h.legacy))
    ensures !SmallHashes(WithDefaults(h.legacy)) ==> ParseHeader(EncodeAll(HeaderFields(h, t)), t).Err?
  {
    PayloadParses(h, t);
    var l := WithDefaults(h.legacy);
    if SmallHashes(l) {
      LegacyFieldsDecode(l);
    } else {
      HashesAreShort(h, t);
      OversizedRefused(l);
    }
  }

  lemma FoldPrefix(h: FullHeader, t: Text)
    requires Encodable(h, t)
    ensures
      var p := EmptyProto.(version := h.header.version, height := h.header.height, time := h.header.time);
      FoldFields(EmptyProto, HeaderFields(h, t), t)
      == FoldFields(p, Optionals(ByteFields(h.header, WithDefaults(h.legacy), t)), t)
  {
    VersionRoundTrip(h.header.version);
    var rest := Optionals(ByteFields(h.header, WithDefaults(h.legacy), t));
    var a := BytesField(1, EncodeAll(VersionFields(h.header.version)));
    var b, c := VarintField(2, h.header.height), VarintField(3, h.header.time);
    var p1 := EmptyProto.(version := h.header.version);
    var p2 := p1.(height := h.header.height);
    assert ([a, b, c] + rest)[1..] == [b, c] + rest;
    assert FoldFields(EmptyProto, [a, b, c] + rest, t) == FoldFields(p1, [b, c] + rest, t);
    assert ([b, c] + rest)[1..] == [c] + rest;
    assert FoldFields(p1, [b, c] + rest, t) == FoldFields(p2, [c] + rest, t);
    assert ([c] + rest)[1..] == rest;
  }

  /** The input is at its end or continues with a field of another number. */
  ghost predicate NotNext(num: nat, b: Bytes) {
    b == [] || (ConsumeTag(b).Got? && ConsumeTag(b).value.num != num)
  }

  lemma OptionalNotNext(num: nat, value: Bytes, tail: Bytes, other: nat)
    requires 1 <= num <= MAX_INT32 && num != other && NotNext(other, tail)
    ensures NotNext(other, EncodeAll(Optional(num, value)) + tail)
  {
    if |value| > 0 {
      var f := BytesField(num, value);
      EncodeOne(f);
      assert EncodeAll([f]) + tail == AppendTag(num, BYTES) + (Payload(f) + tail);
      TagThen(num, BYTES, Payload(f) + tail);
    } else {
      assert [] + tail == tail;
    }
  }

  lemma OptionalReads(num: nat, value: Bytes, tail: Bytes)
    requires 1 <= num <= MAX_INT32 && 0 < |value| < U64
    ensures
      var b := EncodeAll(Optional(num, value)) + tail;
      var n := |AppendTag(num, BYTES)|;
      && b != [] && ConsumeTag(b) == Got(Tag(num, BYTES), n)
      && ConsumeBytes(b[n..]) == Got(value, |AppendVarint(|value|)| + |value|)
      && b[n..][|AppendVarint(|value|)| + |value|..] == tail
  {
    var f := BytesField(num, value);
    EncodeOne(f);
    assert EncodeAll([f]) + tail == AppendTag(num, BYTES) + (Payload(f) + tail);
    TagThen(num, BYTES, Payload(f) + tail);
    BytesRoundTrip(value, tail);
    assert Payload(f) == AppendVarint(|value|) + value;
    assert (Payload(f) + tail)[|Payload(f)|..] == tail;
  }

  /** An optional field can be told from what follows it. */
  lemma OptionalSplits(num: nat, x: Bytes, a: Bytes, y: Bytes, b: Bytes)
    requires 1 <= num <= MAX_INT32 && |x| < U64 && |y| < U64 && NotNext(num, a) && NotNext(num, b)
    requires EncodeAll(Optional(num, x)) + a == EncodeAll(Optional(num, y)) + b
    ensures x == y && a == b
  {
    if |x| > 0 {
      OptionalReads(num, x, a);
    } else {
      assert EncodeAll(Optional(num, x)) + a == a;
    }
    if |y| > 0 {
      OptionalReads(num, y, b);
    } else {
      assert EncodeAll(Optional(num, y)) + b == b;
    }
  }

  /** The encoded legacy fields determine the legacy fields, of whatever size. */
  lemma LegacyEncodingInjective(k: Legacy, l: Legacy)
    requires ShortHashes(k) && ShortHashes(l) && EncodeAll(LegacyFields(k)) == EncodeAll(LegacyFields(l))
    ensures k == l
  {
    var ck, rk := EncodeAll(Optional(CONSENSUS_HASH, k.consensusHash)), EncodeAll(Optional(LAST_RESULTS_HASH, k.lastResultsHash));
    var cl, rl := EncodeAll(Optional(CONSENSUS_HASH, l.consensusHash)), EncodeAll(Optional(LAST_RESULTS_HASH, l.lastResultsHash));
    LegacyTail(k);
    LegacyTail(l);
    OptionalSplits(LAST_COMMIT_HASH, k.lastCommitHash, ck + rk, l.lastCommitHash, cl + rl);
    OptionalSplits(CONSENSUS_HASH, k.consensusHash, rk, l.consensusHash, rl);
    assert rk + [] == rk && rl + [] == rl;
    OptionalSplits(LAST_RESULTS_HASH, k.lastResultsHash, [], l.lastResultsHash, []);
  }

  lemma LegacyTail(l: Legacy)
    ensures
      var a, b, c := EncodeAll(Optional(LAST_COMMIT_HASH, l.lastCommitHash)),
                     EncodeAll(Optional(CONSENSUS_HASH, l.consensusHash)),
                     EncodeAll(Optional(LAST_RESULTS_HASH, l.lastResultsHash));
      EncodeAll(LegacyFields(l)) == a + (b + c) && NotNext(LAST_COMMIT_HASH, b + c) && NotNext(CONSENSUS_HASH, c)
  {
    var a, b, c := EncodeAll(Optional(LAST_COMMIT_HASH, l.lastCommitHash)),
                   EncodeAll(Optional(CONSENSUS_HASH, l.consensusHash)),
                   EncodeAll(Optional(LAST_RESULTS_HASH, l.lastResultsHash));
    UnknownIsLegacy(l);
    Regroup(a, b, c);
    TwoNotNext(CONSENSUS_HASH, l.consensusHash, LAST_RESULTS_HASH, l.lastResultsHash, LAST_COMMIT_HASH);
  }

  lemma Regroup(a: Bytes, b: Bytes, c: Bytes)
    ensures [] + a + b + c == a + (b + c)
  {
  }

  lemma TwoNotNext(m: nat, x: Bytes, n: nat, y: Bytes, other: nat)
    requires 1 <= m <= MAX_INT32 && 1 <= n <= MAX_INT32 && m != n && m != other && n != other
    ensures NotNext(m, EncodeAll(Optional(n, y)))
    ensures NotNext(other, EncodeAll(Optional(m, x)) + EncodeAll(Optional(n, y)))
  {
    var tail := EncodeAll(Optional(n, y));
    assert tail + [] == tail;
    OptionalNotNext(n, y, [], m);
    OptionalNotNext(n, y, [], other);
    OptionalNotNext(m, x, tail, other);
  }

  /** The payload is injective up to the default, whatever the sizes of the hashes: two headers have
      the same legacy payload exactly when they agree once the defaults are filled in. */
  lemma PayloadInjective(g: FullHeader, h: FullHeader, t: Text)
    requires TextLaws(t) && Encodable(g, t) && Encodable(h, t)
    ensures EncodeAll(HeaderFields(g, t)) == EncodeAll(HeaderFields(h, t)) <==> Normalize(g) == Normalize(h)
  {
    if EncodeAll(HeaderFields(g, t)) == EncodeAll(HeaderFields(h, t)) {
      PayloadParses(g, t);
      PayloadParses(h, t);
      HashesAreShort(g, t);
      HashesAreShort(h, t);
      LegacyEncodingInjective(WithDefaults(g.legacy), WithDefaults(h.legacy));
    }
  }
}

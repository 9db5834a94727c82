/** The legacy header encoding (types/serialization.go, types/header.go): fields 5, 7 and 9 that the
    slim header dropped travel as unknown fields and are part of the legacy signing payload. Go's nil
    and empty byte slices are one value here. */
module LegacyHeader {
  import opened Basics
  import opened Wire

  const LAST_COMMIT_HASH := 5
  const CONSENSUS_HASH := 7
  const LAST_RESULTS_HASH := 9
  const MAX_UNKNOWN_FIELD_SIZE: nat := 1024 * 1024
  const MAX_LEGACY_HASH_SIZE: nat := 1024

  datatype Legacy = Legacy(lastCommitHash: Bytes, consensusHash: Bytes, lastResultsHash: Bytes)

  const NoLegacy := Legacy([], [], [])

  predicate IsZero(l: Legacy) {
    |l.lastCommitHash| == 0 && |l.consensusHash| == 0 && |l.lastResultsHash| == 0
  }

  datatype DecodeError = UnknownTooLarge | Malformed(cause: WireError) | HashTooLarge(num: nat)

  predicate IsLegacyNumber(num: nat) {
    num == LAST_COMMIT_HASH || num == CONSENSUS_HASH || num == LAST_RESULTS_HASH
  }

  function SetField(l: Legacy, num: nat, value: Bytes): Legacy
    requires IsLegacyNumber(num)
  {
    if num == LAST_COMMIT_HASH then l.(lastCommitHash := value)
    else if num == CONSENSUS_HASH then l.(consensusHash := value)
    else l.(lastResultsHash := value)
  }

  /** One turn of the decode loop: the rest of the input and the fields so far. */
  function DecodeStep(unknown: Bytes, l: Legacy): (r: Result<(Bytes, Legacy), DecodeError>)
    requires |unknown| > 0
    ensures r.Ok? ==> |r.value.0| < |unknown|
  {
    match ConsumeTag(unknown)
    case Bad(e) => Err(Malformed(e))
    case Got(tag, n) =>
      var rest := unknown[n..];
      if IsLegacyNumber(tag.num) && tag.typ == BYTES then
        match ConsumeBytes(rest)
        case Bad(e) => Err(Malformed(e))
        case Got(value, m) =>
          if |value| > MAX_LEGACY_HASH_SIZE then Err(HashTooLarge(tag.num))
          else Ok((rest[m..], SetField(l, tag.num, value)))
      else
        match ConsumeFieldValue(tag.num, tag.typ, rest, RECURSION_LIMIT)
        case Bad(e) => Err(Malformed(e))
        case Got(_, m) => Ok((rest[m..], l))
  }

  function DecodeLoop(unknown: Bytes, l: Legacy): Result<Legacy, DecodeError>
    decreases |unknown|
  {
    if |unknown| == 0 then Ok(l)
    else match DecodeStep(unknown, l)
         case Err(e) => Err(e)
         case Ok((rest, l')) => DecodeLoop(rest, l')
  }

  function DecodeLegacy(unknown: Bytes): Result<Option<Legacy>, DecodeError> {
    if |unknown| == 0 then Ok(None)
    else if |unknown| > MAX_UNKNOWN_FIELD_SIZE then Err(UnknownTooLarge)
    else match DecodeLoop(unknown, NoLegacy)
         case Err(e) => Err(e)
         case Ok(l) => Ok(if IsZero(l) then None else Some(l))
  }

  /** decodeLegacyHeaderFields as the loop it is. */
  method DecodeLegacyHeaderFields(input: Bytes) returns (r: Result<Option<Legacy>, DecodeError>)
    ensures r == DecodeLegacy(input)
  {
    var unknown := input;
    if |unknown| == 0 {
      return Ok(None);
    }
    if |unknown| > MAX_UNKNOWN_FIELD_SIZE {
      return Err(UnknownTooLarge);
    }
    var legacy := NoLegacy;
    while |unknown| > 0
      invariant DecodeLoop(unknown, legacy) == DecodeLoop(input, NoLegacy)
      decreases |unknown|
    {
      ghost var before := unknown;
      var tag := ConsumeTag(unknown);
      if tag.Bad? {
        return Err(Malformed(tag.error));
      }
      unknown := unknown[tag.size..];
      var fieldNum, typ := tag.value.num, tag.value.typ;
      if IsLegacyNumber(fieldNum) {
        if typ != BYTES {
          var size := ConsumeFieldValue(fieldNum, typ, unknown, RECURSION_LIMIT);
          if size.Bad? {
            return Err(Malformed(size.error));
          }
          unknown := unknown[size.size..];
          continue;
        }
        var value := ConsumeBytes(unknown);
        if value.Bad? {
          return Err(Malformed(value.error));
        }
        unknown := unknown[value.size..];
        if |value.value| > MAX_LEGACY_HASH_SIZE {
          return Err(HashTooLarge(fieldNum));
        }
        legacy := SetField(legacy, fieldNum, value.value);
      } else {
        var size := ConsumeFieldValue(fieldNum, typ, unknown, RECURSION_LIMIT);
        if size.Bad? {
          return Err(Malformed(size.error));
        }
        unknown := unknown[size.size..];
      }
    }
    return Ok(if IsZero(legacy) then None else Some(legacy));
  }

  // ---------------------------------------------------------------- decoding well-formed fields

  predicate IsLegacyField(f: Field) {
    f.BytesField? && IsLegacyNumber(f.num)
  }

  /** What decoding a list of fields means: the last value of each legacy number wins, other fields
      and other wire types are skipped, and an oversized hash is an error. */
  function FoldLegacy(fs: seq<Field>, l: Legacy): Result<Legacy, DecodeError> {
    if fs == [] then Ok(l)
    else if !IsLegacyField(fs[0]) then FoldLegacy(fs[1..], l)
    else if |fs[0].bytes| > MAX_LEGACY_HASH_SIZE then Err(HashTooLarge(fs[0].num))
    else FoldLegacy(fs[1..], SetField(l, fs[0].num, fs[0].bytes))
  }

  lemma StepOverField(f: Field, tail: Bytes, l: Legacy)
    requires WellFormed(f, RECURSION_LIMIT)
    ensures |Encode(f) + tail| > 0
    ensures DecodeStep(Encode(f) + tail, l)
            == if !IsLegacyField(f) then Ok((tail, l))
               else if |f.bytes| > MAX_LEGACY_HASH_SIZE then Err(HashTooLarge(f.num))
               else Ok((tail, SetField(l, f.num, f.bytes)))
  {
    var b := Encode(f) + tail;
    assert b == AppendTag(f.num, TypeOf(f)) + (Payload(f) + tail);
    TagThen(f.num, TypeOf(f), Payload(f) + tail);
    assert (Payload(f) + tail)[|Payload(f)|..] == tail;
    if IsLegacyField(f) {
      BytesRoundTrip(f.bytes, tail);
    } else {
      FieldValueExact(f, tail, RECURSION_LIMIT);
    }
  }

  /** Decoding the encoding of any well-formed field list is the fold over the list. */
  lemma {:induction false} DecodeLoopIsFold(fs: seq<Field>, l: Legacy)
    requires AllWellFormed(fs, RECURSION_LIMIT)
    ensures DecodeLoop(EncodeAll(fs), l) == FoldLegacy(fs, l)
    decreases fs
  {
    if fs != [] {
      var tail := EncodeAll(fs[1..]);
      StepOverField(fs[0], tail, l);
      if !IsLegacyField(fs[0]) {
        DecodeLoopIsFold(fs[1..], l);
      } else if |fs[0].bytes| <= MAX_LEGACY_HASH_SIZE {
        DecodeLoopIsFold(fs[1..], SetField(l, fs[0].num, fs[0].bytes));
      }
    }
  }

  /** The fields encodeLegacyUnknownFields writes: the non-empty ones, by number. */
  function LegacyFields(l: Legacy): seq<Field> {
    Optional(LAST_COMMIT_HASH, l.lastCommitHash)
    + Optional(CONSENSUS_HASH, l.consensusHash)
    + Optional(LAST_RESULTS_HASH, l.lastResultsHash)
  }

  function Optional(num: nat, value: Bytes): seq<Field> {
    if |value| > 0 then [BytesField(num, value)] else []
  }

  function AppendBytesField(buf: Bytes, num: nat, value: Bytes): Bytes {
    buf + AppendTag(num, BYTES) + AppendVarint(|value|) + value
  }

  lemma AppendIsEncode(buf: Bytes, fs: seq<Field>, num: nat, value: Bytes)
    requires buf == EncodeAll(fs)
    ensures AppendBytesField(buf, num, value) == EncodeAll(fs + [BytesField(num, value)])
  {
    var f := BytesField(num, value);
    EncodeAllAppend(fs, [f]);
    EncodeOne(f);
  }

  method AppendOptional(buf: Bytes, num: nat, value: Bytes, ghost fs: seq<Field>) returns (r: Bytes)
    requires buf == EncodeAll(fs)
    ensures r == EncodeAll(fs + Optional(num, value))
  {
    r := buf;
    if |value| > 0 {
      AppendIsEncode(buf, fs, num, value);
      r := AppendBytesField(buf, num, value);
    } else {
      assert fs + [] == fs;
    }
  }

  method EncodeLegacyUnknownFields(legacy: Option<Legacy>) returns (payload: Bytes)
    ensures payload == if legacy.None? then [] else EncodeAll(LegacyFields(legacy.value))
  {
    if legacy.None? || IsZero(legacy.value) {
      return [];
    }
    var l := legacy.value;
    payload := AppendOptional([], LAST_COMMIT_HASH, l.lastCommitHash, []);
    payload := AppendOptional(payload, CONSENSUS_HASH, l.consensusHash, [] + Optional(LAST_COMMIT_HASH, l.lastCommitHash));
    payload := AppendOptional(payload, LAST_RESULTS_HASH, l.lastResultsHash,
                              [] + Optional(LAST_COMMIT_HASH, l.lastCommitHash) + Optional(CONSENSUS_HASH, l.consensusHash));
    assert [] + Optional(LAST_COMMIT_HASH, l.lastCommitHash) == Optional(LAST_COMMIT_HASH, l.lastCommitHash);
  }

  ghost predicate SmallHashes(l: Legacy) {
    |l.lastCommitHash| <= MAX_LEGACY_HASH_SIZE && |l.consensusHash| <= MAX_LEGACY_HASH_SIZE
    && |l.lastResultsHash| <= MAX_LEGACY_HASH_SIZE
  }

  /** Skipping what is not a legacy field does not change the fold. */
  lemma {:induction false} FoldSkipsOthers(fs: seq<Field>, l: Legacy)
    ensures FoldLegacy(fs, l) == FoldLegacy(Filter(IsLegacyField, fs), l)
  {
    if fs != [] {
      var tail := Filter(IsLegacyField, fs[1..]);
      if IsLegacyField(fs[0]) {
        assert ([fs[0]] + tail)[1..] == tail;
        if |fs[0].bytes| <= MAX_LEGACY_HASH_SIZE {
          FoldSkipsOthers(fs[1..], SetField(l, fs[0].num, fs[0].bytes));
        }
      } else {
        assert [] + tail == tail;
        FoldSkipsOthers(fs[1..], l);
      }
    }
  }

  lemma FoldOfLegacyFields(l: Legacy)
    requires SmallHashes(l)
    ensures FoldLegacy(LegacyFields(l), NoLegacy) == Ok(l)
  {
    var a, b, c := Optional(LAST_COMMIT_HASH, l.lastCommitHash), Optional(CONSENSUS_HASH, l.consensusHash),
                   Optional(LAST_RESULTS_HASH, l.lastResultsHash);
    var l1 := NoLegacy.(lastCommitHash := l.lastCommitHash);
    var l2 := l1.(consensusHash := l.consensusHash);
    FoldOptional(LAST_COMMIT_HASH, l.lastCommitHash, b + c, NoLegacy);
    assert a + (b + c) == LegacyFields(l);
    FoldOptional(CONSENSUS_HASH, l.consensusHash, c, l1);
    FoldOptional(LAST_RESULTS_HASH, l.lastResultsHash, [], l2);
    assert c + [] == c;
  }

  lemma FoldOptional(num: nat, value: Bytes, rest: seq<Field>, l: Legacy)
    requires IsLegacyNumber(num) && |value| <= MAX_LEGACY_HASH_SIZE
    requires SetField(l, num, []) == l
    ensures FoldLegacy(Optional(num, value) + rest, l) == FoldLegacy(rest, SetField(l, num, value))
  {
    if |value| > 0 {
      assert (Optional(num, value) + rest)[1..] == rest;
    } else {
      assert [] + rest == rest;
    }
  }

  /** On any well-formed unknown fields, whatever they are, decoding is the fold within the limit. */
  lemma DecodeLegacyIsFold(fs: seq<Field>)
    requires AllWellFormed(fs, RECURSION_LIMIT)
    ensures
      var r, l := DecodeLegacy(EncodeAll(fs)), FoldLegacy(fs, NoLegacy);
      if |EncodeAll(fs)| > MAX_UNKNOWN_FIELD_SIZE then r == Err(UnknownTooLarge)
      else if l.Err? then r == Err(l.error)
      else r == Ok(if IsZero(l.value) then None else Some(l.value))
  {
    DecodeLoopIsFold(fs, NoLegacy);
  }

  /** Round trip: the encoded legacy fields decode to themselves, also when other well-formed
      unknown fields are interleaved with them, as long as the whole stays within the limit. */
  lemma LegacyRoundTrip(l: Legacy, fs: seq<Field>)
    requires SmallHashes(l) && AllWellFormed(fs, RECURSION_LIMIT)
    requires Filter(IsLegacyField, fs) == LegacyFields(l)
    requires |EncodeAll(fs)| <= MAX_UNKNOWN_FIELD_SIZE
    ensures DecodeLegacy(EncodeAll(fs)) == Ok(if IsZero(l) then None else Some(l))
  {
    DecodeLegacyIsFold(fs);
    FoldSkipsOthers(fs, NoLegacy);
    FoldOfLegacyFields(l);
  }
}

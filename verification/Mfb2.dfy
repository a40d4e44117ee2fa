/** The MFB2 branch receipt: its encoding, the strict parser the guest and the CLI share, and the
    lenient decoder of the backend. */
module Mfb2 {
  import opened Results
  import opened ByteStrings

  const BPS_MAX := 10_000
  const MAX_SCORES := 32
  const MAX_RESULT_BYTES := 512

  datatype OutputKind = Scalar | Categorical | NarrativeWithScalar

  datatype Score = Score(keyHash: Bytes, bps: nat)

  /** Everything an MFB2 string carries. */
  datatype Receipt = Receipt(
    kind: OutputKind,
    branchIndex: nat,
    scalar: Option<nat>,
    lower: Option<nat>,
    upper: Option<nat>,
    category: Option<nat>,
    scores: Option<seq<Score>>,
    canonicalHash: Bytes)

  /** The fields an aggregate reduction reads. */
  datatype BranchResult = BranchResult(
    branchIndex: nat,
    kind: OutputKind,
    scalar: Option<nat>,
    category: Option<nat>,
    canonicalHash: Bytes,
    resultHash: Digest)

  datatype Mfb2Error =
    | TooShort
    | BadMagic
    | UnsupportedVersion(version: byte)
    | UnknownOutputKind(id: byte)
    | UnknownFlagBits(flags: byte)
    | ValueOutOfRange
    | TooManyNarrativeScores(count: byte)
    | TrailingBytes

  // ----- the encoding

  function Magic(): Bytes {
    [0x4D, 0x46, 0x42, 0x32]
  }

  function KindId(kind: OutputKind): byte {
    match kind
    case Scalar => 1
    case Categorical => 2
    case NarrativeWithScalar => 3
  }

  function KindOf(id: byte): Option<OutputKind> {
    if id == 1 then Some(Scalar)
    else if id == 2 then Some(Categorical)
    else if id == 3 then Some(NarrativeWithScalar)
    else None
  }

  function FlagOf<T>(o: Option<T>, bit: nat): nat {
    if o.Some? then bit else 0
  }

  function Flags(r: Receipt): (f: nat)
    ensures f < 32
  {
    FlagOf(r.scalar, 1) + FlagOf(r.lower, 2) + FlagOf(r.upper, 4) + FlagOf(r.category, 8) + FlagOf(r.scores, 16)
  }

  /** Whether a flag bit is set. */
  predicate Has(flags: byte, bit: nat)
    requires bit > 0
  {
    flags / bit % 2 == 1
  }

  predicate BpsOk(o: Option<nat>) {
    o.Some? ==> o.value <= BPS_MAX
  }

  predicate ScoreOk(s: Score) {
    |s.keyHash| == 4 && s.bps <= BPS_MAX
  }

  predicate WellFormed(r: Receipt) {
    && r.branchIndex < U32_LIMIT
    && BpsOk(r.scalar) && BpsOk(r.lower) && BpsOk(r.upper)
    && (r.category.Some? ==> r.category.value < 256)
    && (r.scores.Some? ==> 1 <= |r.scores.value| <= MAX_SCORES && forall i :: 0 <= i < |r.scores.value| ==> ScoreOk(r.scores.value[i]))
    && |r.canonicalHash| == 32
  }

  function BpsBytes(o: Option<nat>): Bytes {
    if o.Some? then LittleEndian(o.value, 2) else []
  }

  function CategoryBytes(o: Option<nat>): Bytes {
    if o.Some? then [o.value % 256] else []
  }

  function ScoreListBytes(scores: seq<Score>): Bytes {
    if scores == [] then []
    else scores[0].keyHash + LittleEndian(scores[0].bps, 2) + ScoreListBytes(scores[1..])
  }

  function ScoresBytes(o: Option<seq<Score>>): Bytes {
    if o.Some? then [|o.value| % 256] + ScoreListBytes(o.value) else []
  }

  function HeaderBytes(r: Receipt): (b: Bytes)
    ensures |b| == 11
  {
    Magic() + [2, KindId(r.kind)] + LittleEndian(r.branchIndex, 4) + [Flags(r)]
  }

  function BodyBytes(r: Receipt): Bytes {
    BpsBytes(r.scalar) + (BpsBytes(r.lower) + (BpsBytes(r.upper) + (CategoryBytes(r.category) + (ScoresBytes(r.scores) + r.canonicalHash))))
  }

  function Encode(r: Receipt): Bytes {
    HeaderBytes(r) + BodyBytes(r)
  }

  lemma {:induction false} ScoreListLength(scores: seq<Score>)
    requires forall i :: 0 <= i < |scores| ==> ScoreOk(scores[i])
    ensures |ScoreListBytes(scores)| == 6 * |scores|
  {
    if scores != [] {
      ScoreListLength(scores[1..]);
    }
  }

  /** No receipt is longer than 243 bytes, so the 512-byte limit is never reached. */
  lemma EncodingLength(r: Receipt)
    requires WellFormed(r)
    ensures 43 <= |Encode(r)| <= 243 < MAX_RESULT_BYTES
  {
    if r.scores.Some? {
      ScoreListLength(r.scores.value);
    }
  }

  // ----- the layout

  /** A number in two bytes, least significant first. */
  predicate U16At(data: Bytes, at: nat, n: nat) {
    at + 2 <= |data| && n == data[at] as int + 256 * data[at + 1] as int
  }

  predicate U32At(data: Bytes, at: nat, n: nat) {
    && at + 4 <= |data|
    && n == data[at] as int + 256 * data[at + 1] as int + 65_536 * data[at + 2] as int + 16_777_216 * data[at + 3] as int
  }

  function SizeIf<T>(o: Option<T>, size: nat): nat {
    if o.Some? then size else 0
  }

  /** Where the optional fields start: scalar, lower bound, upper bound, label, scores, and the hash after them. */
  datatype Offsets = Offsets(scalar: nat, lower: nat, upper: nat, category: nat, scores: nat, hash: nat)

  function OffsetsOf(r: Receipt): Offsets {
    var lower := 11 + SizeIf(r.scalar, 2);
    var upper := lower + SizeIf(r.lower, 2);
    var category := upper + SizeIf(r.upper, 2);
    var scores := category + SizeIf(r.category, 1);
    Offsets(11, lower, upper, category, scores, scores + if r.scores.Some? then 1 + 6 * |r.scores.value| else 0)
  }

  lemma Concatenated(p: Bytes, q: Bytes, rest: Bytes)
    ensures (p + (q + rest))[|p|..|p| + |q|] == q
    ensures p + (q + rest) == (p + q) + rest
  {
  }

  lemma ScoresSize(o: Option<seq<Score>>)
    requires o.Some? ==> forall i :: 0 <= i < |o.value| ==> ScoreOk(o.value[i])
    ensures |ScoresBytes(o)| == if o.Some? then 1 + 6 * |o.value| else 0
  {
    if o.Some? {
      ScoreListLength(o.value);
    }
  }

  /** Every field stands alone between its own offset and the next. */
  lemma FieldSlices(r: Receipt)
    requires WellFormed(r)
    ensures var data, at := Encode(r), OffsetsOf(r);
            && |data| == at.hash + 32 && data[..11] == HeaderBytes(r)
            && data[at.scalar..at.lower] == BpsBytes(r.scalar) && data[at.lower..at.upper] == BpsBytes(r.lower)
            && data[at.upper..at.category] == BpsBytes(r.upper) && data[at.category..at.scores] == CategoryBytes(r.category)
            && data[at.scores..at.hash] == ScoresBytes(r.scores) && data[at.hash..] == r.canonicalHash
  {
    ScoresSize(r.scores);
    var p0, p1, p2, p3, p4, p5 := HeaderBytes(r), BpsBytes(r.scalar), BpsBytes(r.lower), BpsBytes(r.upper), CategoryBytes(r.category), ScoresBytes(r.scores);
    assert |p0| == 11 && |p1| == SizeIf(r.scalar, 2) && |p2| == SizeIf(r.lower, 2) && |p3| == SizeIf(r.upper, 2) && |p4| == SizeIf(r.category, 1);
    hide HeaderBytes, BpsBytes, CategoryBytes, ScoresBytes;
    var data := Encode(r);
    var t5 := r.canonicalHash;
    var t4 := p5 + t5;
    var t3 := p4 + t4;
    var t2 := p3 + t3;
    var t1 := p2 + t2;
    assert data == p0 + (p1 + t1);
    Concatenated(p0, p1, t1);
    Concatenated(p0 + p1, p2, t2);
    Concatenated(p0 + p1 + p2, p3, t3);
    Concatenated(p0 + p1 + p2 + p3, p4, t4);
    Concatenated(p0 + p1 + p2 + p3 + p4, p5, t5);
  }

  lemma BpsStands(data: Bytes, at: nat, next: nat, o: Option<nat>)
    requires at <= next <= |data| && data[at..next] == BpsBytes(o) && BpsOk(o)
    ensures o.Some? ==> U16At(data, at, o.value)
  {
    if o.Some? {
      Pow256Small();
      LittleEndianRoundTrip(o.value, 2);
      LittleEndianDigits(LittleEndian(o.value, 2));
      hide LittleEndian, FromLittleEndian;
      assert data[at..next][0] == data[at] && data[at..next][1] == data[at + 1];
    }
  }

  lemma {:induction false} ScoreStands(scores: seq<Score>, i: nat)
    requires i < |scores| && forall k :: 0 <= k < |scores| ==> ScoreOk(scores[k])
    ensures 6 * i + 6 <= |ScoreListBytes(scores)|
    ensures ScoreListBytes(scores)[6 * i..6 * i + 4] == scores[i].keyHash && U16At(ScoreListBytes(scores), 6 * i + 4, scores[i].bps)
  {
    var key, bps, tail := scores[0].keyHash, LittleEndian(scores[0].bps, 2), ScoreListBytes(scores[1..]);
    var list := ScoreListBytes(scores);
    assert list == key + bps + tail && |key| == 4 && |bps| == 2;
    if i == 0 {
      assert list[4..6] == bps;
      hide ScoreListBytes;
      BpsStands(list, 4, 6, Some(scores[0].bps));
    } else {
      ScoreStands(scores[1..], i - 1);
      assert scores[1..][i - 1] == scores[i];
      hide ScoreListBytes;
      assert list[6..] == tail;
      assert list[6 * i..6 * i + 4] == tail[6 * (i - 1)..6 * (i - 1) + 4];
      assert list[6 * i + 4] == tail[6 * (i - 1) + 4] && list[6 * i + 5] == tail[6 * (i - 1) + 5];
    }
  }

  /** Each score in six bytes: four of its key's hash, then its value. */
  ghost predicate ScoresStand(data: Bytes, at: nat, scores: seq<Score>) {
    && at + 1 + 6 * |scores| <= |data| && data[at] == |scores|
    && forall i :: 0 <= i < |scores| ==>
         data[at + 1 + 6 * i..at + 5 + 6 * i] == scores[i].keyHash && U16At(data, at + 5 + 6 * i, scores[i].bps)
  }

  /** Six bytes of a list that stands in the data. */
  lemma SliceStands(data: Bytes, from: nat, list: Bytes, at: nat)
    requires from + |list| <= |data| && data[from..from + |list|] == list && at + 6 <= |list|
    ensures data[from + at..from + at + 4] == list[at..at + 4]
    ensures data[from + at + 4] == list[at + 4] && data[from + at + 5] == list[at + 5]
  {
    var stands := data[from..from + |list|];
    var left, right := stands[at..at + 4], data[from + at..from + at + 4];
    forall k | 0 <= k < 4 ensures left[k] == right[k] {
      assert stands[at + k] == data[from + at + k];
    }
    assert left == right;
    assert stands[at + 4] == data[from + at + 4] && stands[at + 5] == data[from + at + 5];
  }

  lemma ScoresStandIn(data: Bytes, at: nat, scores: seq<Score>)
    requires |scores| <= MAX_SCORES && forall k :: 0 <= k < |scores| ==> ScoreOk(scores[k])
    requires at + 1 + 6 * |scores| <= |data| && data[at..at + 1 + 6 * |scores|] == ScoresBytes(Some(scores))
    ensures ScoresStand(data, at, scores)
  {
    hide ScoreListBytes;
    var section := data[at..at + 1 + 6 * |scores|];
    var list := ScoreListBytes(scores);
    ScoreListLength(scores);
    assert section == [|scores| % 256] + list;
    assert data[at] == section[0] && section[1..] == list;
    hide ScoresBytes;
    forall i | 0 <= i < |scores|
      ensures data[at + 1 + 6 * i..at + 5 + 6 * i] == scores[i].keyHash && U16At(data, at + 5 + 6 * i, scores[i].bps)
    {
      ScoreStands(scores, i);
      SliceStands(data, at + 1, list, 6 * i);
    }
  }

  lemma HeaderLayout(r: Receipt)
    requires WellFormed(r)
    ensures var b := HeaderBytes(r);
            && b[0] == 0x4D && b[1] == 0x46 && b[2] == 0x42 && b[3] == 0x32 && b[4] == 2
            && b[5] == (match r.kind case Scalar => 1 case Categorical => 2 case NarrativeWithScalar => 3)
            && U32At(b, 6, r.branchIndex)
            && b[10] == SizeIf(r.scalar, 1) + SizeIf(r.lower, 2) + SizeIf(r.upper, 4) + SizeIf(r.category, 8) + SizeIf(r.scores, 16)
  {
    var number := LittleEndian(r.branchIndex, 4);
    U32RoundTrip(r.branchIndex);
    LittleEndianDigits(number);
    hide LittleEndian, FromLittleEndian;
    assert HeaderBytes(r)[6..10] == number;
  }

  /** The whole layout of an MFB2 string, byte by byte. */
  lemma EncodingLayout(r: Receipt)
    requires WellFormed(r)
    ensures var data, at := Encode(r), OffsetsOf(r);
            && |data| == at.hash + 32
            && data[..4] == [0x4D, 0x46, 0x42, 0x32] && data[4] == 2
            && data[5] == (match r.kind case Scalar => 1 case Categorical => 2 case NarrativeWithScalar => 3)
            && U32At(data, 6, r.branchIndex)
            && data[10] == SizeIf(r.scalar, 1) + SizeIf(r.lower, 2) + SizeIf(r.upper, 4) + SizeIf(r.category, 8) + SizeIf(r.scores, 16)
            && (r.scalar.Some? ==> U16At(data, at.scalar, r.scalar.value))
            && (r.lower.Some? ==> U16At(data, at.lower, r.lower.value))
            && (r.upper.Some? ==> U16At(data, at.upper, r.upper.value))
            && (r.category.Some? ==> data[at.category] == r.category.value)
            && (r.scores.Some? ==> ScoresStand(data, at.scores, r.scores.value))
            && data[at.hash..] == r.canonicalHash
  {
    var data, at := Encode(r), OffsetsOf(r);
    FieldSlices(r);
    HeaderLayout(r);
    hide HeaderBytes, Encode, BpsBytes, ScoresBytes, ScoresStand;
    assert forall k :: 0 <= k < 11 ==> data[k] == data[..11][k];
    BpsStands(data, at.scalar, at.lower, r.scalar);
    BpsStands(data, at.lower, at.upper, r.lower);
    BpsStands(data, at.upper, at.category, r.upper);
    if r.category.Some? {
      assert data[at.category..at.scores][0] == data[at.category];
    }
    if r.scores.Some? {
      ScoresStandIn(data, at.scores, r.scores.value);
    }
  }

  // ----- the parser as a function

  function ReadBps(rest: Bytes): (r: Result<(nat, Bytes), Mfb2Error>)
    ensures r.Ok? ==> |r.value.1| == |rest| - 2
  {
    if |rest| < 2 then Err(TooShort)
    else
      var value := FromLittleEndian(rest[..2]);
      if value > BPS_MAX then Err(ValueOutOfRange) else Ok((value, rest[2..]))
  }

  function ReadOptionalBps(present: bool, rest: Bytes): Result<(Option<nat>, Bytes), Mfb2Error> {
    if !present then Ok((None, rest))
    else
      var (value, rest') :- ReadBps(rest);
      Ok((Some(value), rest'))
  }

  function ReadOptionalU8(present: bool, rest: Bytes): Result<(Option<nat>, Bytes), Mfb2Error> {
    if !present then Ok((None, rest))
    else if rest == [] then Err(TooShort)
    else Ok((Some(rest[0]), rest[1..]))
  }

  function ReadScoreList(count: nat, rest: Bytes): Result<(seq<Score>, Bytes), Mfb2Error> {
    if count == 0 then Ok(([], rest))
    else if |rest| < 4 then Err(TooShort)
    else
      var (bps, rest1) :- ReadBps(rest[4..]);
      var (more, rest2) :- ReadScoreList(count - 1, rest1);
      Ok(([Score(rest[..4], bps)] + more, rest2))
  }

  function ReadScores(present: bool, rest: Bytes): Result<(Option<seq<Score>>, Bytes), Mfb2Error> {
    if !present then Ok((None, rest))
    else if rest == [] then Err(TooShort)
    else if rest[0] == 0 || rest[0] > MAX_SCORES then Err(TooManyNarrativeScores(rest[0]))
    else
      var (scores, rest') :- ReadScoreList(rest[0], rest[1..]);
      Ok((Some(scores), rest'))
  }

  function ReadHash(rest: Bytes): Result<Bytes, Mfb2Error> {
    if |rest| < 32 then Err(TooShort)
    else if |rest| > 32 then Err(TrailingBytes)
    else Ok(rest)
  }

  function ParseBody(kind: OutputKind, index: nat, flags: byte, rest: Bytes): Result<Receipt, Mfb2Error> {
    var (scalar, rest1) :- ReadOptionalBps(Has(flags, 1), rest);
    var (lower, rest2) :- ReadOptionalBps(Has(flags, 2), rest1);
    var (upper, rest3) :- ReadOptionalBps(Has(flags, 4), rest2);
    ParseTail(kind, index, flags, scalar, lower, upper, rest3)
  }

  function ParseTail(kind: OutputKind, index: nat, flags: byte, scalar: Option<nat>, lower: Option<nat>, upper: Option<nat>,
                     rest: Bytes): Result<Receipt, Mfb2Error>
  {
    var (category, rest1) :- ReadOptionalU8(Has(flags, 8), rest);
    var (scores, rest2) :- ReadScores(Has(flags, 16), rest1);
    var hash :- ReadHash(rest2);
    Ok(Receipt(kind, index, scalar, lower, upper, category, scores, hash))
  }

  /** The full strict decoding of a receipt. */
  function Parse(data: Bytes): Result<Receipt, Mfb2Error> {
    if |data| < 43 then Err(TooShort)
    else if data[..4] != Magic() then Err(BadMagic)
    else if data[4] != 2 then Err(UnsupportedVersion(data[4]))
    else if KindOf(data[5]).None? then Err(UnknownOutputKind(data[5]))
    else if data[10] >= 32 then Err(UnknownFlagBits(data[10]))
    else ParseBody(KindOf(data[5]).value, FromLittleEndian(data[6..10]), data[10], data[11..])
  }

  // ----- round trips

  lemma ReadBpsOfBytes(v: nat, rest: Bytes)
    requires v <= BPS_MAX
    ensures ReadBps(LittleEndian(v, 2) + rest) == Ok((v, rest))
  {
    var b := LittleEndian(v, 2);
    Pow256Small();
    LittleEndianRoundTrip(v, 2);
    assert (b + rest)[..2] == b && (b + rest)[2..] == rest;
  }

  lemma BpsBytesOfRead(rest: Bytes)
    requires ReadBps(rest).Ok?
    ensures ReadBps(rest).value.0 <= BPS_MAX
    ensures rest == LittleEndian(ReadBps(rest).value.0, 2) + ReadBps(rest).value.1
  {
    FromLittleEndianRoundTrip(rest[..2]);
  }

  lemma ReadOptionalBpsOfBytes(o: Option<nat>, rest: Bytes)
    requires BpsOk(o)
    ensures ReadOptionalBps(o.Some?, BpsBytes(o) + rest) == Ok((o, rest))
  {
    if o.Some? {
      ReadBpsOfBytes(o.value, rest);
    } else {
      assert BpsBytes(o) + rest == rest;
    }
  }

  lemma OptionalBpsBytesOfRead(present: bool, rest: Bytes)
    requires ReadOptionalBps(present, rest).Ok?
    ensures var (o, rest') := ReadOptionalBps(present, rest).value;
            o.Some? == present && BpsOk(o) && rest == BpsBytes(o) + rest'
  {
    if present {
      BpsBytesOfRead(rest);
    }
  }

  lemma {:induction false} ReadScoreListOfBytes(scores: seq<Score>, rest: Bytes)
    requires forall i :: 0 <= i < |scores| ==> ScoreOk(scores[i])
    ensures ReadScoreList(|scores|, ScoreListBytes(scores) + rest) == Ok((scores, rest))
  {
    if scores == [] {
      assert ScoreListBytes(scores) + rest == rest;
    } else {
      var key, bps := scores[0].keyHash, LittleEndian(scores[0].bps, 2);
      var tail := ScoreListBytes(scores[1..]) + rest;
      var all := ScoreListBytes(scores) + rest;
      assert all == key + (bps + tail);
      assert all[..4] == key && all[4..] == bps + tail;
      ReadBpsOfBytes(scores[0].bps, tail);
      ReadScoreListOfBytes(scores[1..], rest);
      assert [scores[0]] + scores[1..] == scores;
    }
  }

  lemma {:induction false} ScoreListBytesOfRead(count: nat, rest: Bytes)
    requires ReadScoreList(count, rest).Ok?
    ensures var (scores, rest') := ReadScoreList(count, rest).value;
            && |scores| == count
            && (forall i :: 0 <= i < |scores| ==> ScoreOk(scores[i]))
            && rest == ScoreListBytes(scores) + rest'
  {
    if count > 0 {
      BpsBytesOfRead(rest[4..]);
      var (bps, rest1) := ReadBps(rest[4..]).value;
      ScoreListBytesOfRead(count - 1, rest1);
      var (more, rest2) := ReadScoreList(count - 1, rest1).value;
      assert ([Score(rest[..4], bps)] + more)[1..] == more;
      assert rest == rest[..4] + (LittleEndian(bps, 2) + (ScoreListBytes(more) + rest2));
    }
  }

  lemma ReadCountedScores(scores: seq<Score>, rest: Bytes)
    requires 1 <= |scores| <= MAX_SCORES && forall i :: 0 <= i < |scores| ==> ScoreOk(scores[i])
    ensures ReadScores(true, [|scores|] + (ScoreListBytes(scores) + rest)) == Ok((Some(scores), rest))
  {
    ReadScoreListOfBytes(scores, rest);
    hide ScoreListBytes, ReadScoreList, ScoreOk;
    var all := [|scores|] + (ScoreListBytes(scores) + rest);
    assert all[1..] == ScoreListBytes(scores) + rest;
  }

  lemma ReadScoresOfBytes(o: Option<seq<Score>>, rest: Bytes)
    requires o.Some? ==> 1 <= |o.value| <= MAX_SCORES && forall i :: 0 <= i < |o.value| ==> ScoreOk(o.value[i])
    ensures ReadScores(o.Some?, ScoresBytes(o) + rest) == Ok((o, rest))
  {
    hide ScoreListBytes, ScoreOk, ReadScoreList;
    if o.Some? {
      ReadCountedScores(o.value, rest);
      hide ReadScores;
      var list := ScoreListBytes(o.value);
      assert ([|o.value|] + list) + rest == [|o.value|] + (list + rest);
    } else {
      assert ScoresBytes(o) + rest == rest;
    }
  }

  lemma ScoresBytesOfRead(present: bool, rest: Bytes)
    requires ReadScores(present, rest).Ok?
    ensures var (o, rest') := ReadScores(present, rest).value;
            && o.Some? == present
            && (present ==> 1 <= |o.value| <= MAX_SCORES && forall i :: 0 <= i < |o.value| ==> ScoreOk(o.value[i]))
            && rest == ScoresBytes(o) + rest'
  {
    if present {
      ScoreListBytesOfRead(rest[0], rest[1..]);
      assert rest == [rest[0]] + rest[1..];
    }
  }

  lemma FlagBits(r: Receipt)
    ensures Has(Flags(r), 1) == r.scalar.Some?
    ensures Has(Flags(r), 2) == r.lower.Some?
    ensures Has(Flags(r), 4) == r.upper.Some?
    ensures Has(Flags(r), 8) == r.category.Some?
    ensures Has(Flags(r), 16) == r.scores.Some?
  {
  }

  lemma BitsDetermineFlags(r: Receipt, flags: byte)
    requires flags < 32
    requires Has(flags, 1) == r.scalar.Some? && Has(flags, 2) == r.lower.Some? && Has(flags, 4) == r.upper.Some?
    requires Has(flags, 8) == r.category.Some? && Has(flags, 16) == r.scores.Some?
    ensures Flags(r) == flags
  {
    assert flags == flags % 2 + 2 * (flags / 2 % 2) + 4 * (flags / 4 % 2) + 8 * (flags / 8 % 2) + 16 * (flags / 16 % 2);
  }

  lemma ReadCategoryOfBytes(o: Option<nat>, rest: Bytes)
    requires o.Some? ==> o.value < 256
    ensures ReadOptionalU8(o.Some?, CategoryBytes(o) + rest) == Ok((o, rest))
  {
    if o.Some? {
      assert (CategoryBytes(o) + rest)[1..] == rest;
    } else {
      assert CategoryBytes(o) + rest == rest;
    }
  }

  lemma CategoryBytesOfRead(present: bool, rest: Bytes)
    requires ReadOptionalU8(present, rest).Ok?
    ensures var (o, rest') := ReadOptionalU8(present, rest).value;
            o.Some? == present && (present ==> o.value < 256) && rest == CategoryBytes(o) + rest'
  {
    if present {
      assert rest == [rest[0]] + rest[1..];
    }
  }

  lemma ParseBodyOfBytes(r: Receipt)
    requires WellFormed(r)
    ensures ParseBody(r.kind, r.branchIndex, Flags(r), BodyBytes(r)) == Ok(r)
  {
    FlagBits(r);
    var rest5 := r.canonicalHash;
    var rest4 := ScoresBytes(r.scores) + rest5;
    var rest3 := CategoryBytes(r.category) + rest4;
    var rest2 := BpsBytes(r.upper) + rest3;
    var rest1 := BpsBytes(r.lower) + rest2;
    ReadOptionalBpsOfBytes(r.scalar, rest1);
    ReadOptionalBpsOfBytes(r.lower, rest2);
    ReadOptionalBpsOfBytes(r.upper, rest3);
    ReadCategoryOfBytes(r.category, rest4);
    ReadScoresOfBytes(r.scores, rest5);
    hide BpsBytes, CategoryBytes, ScoresBytes, ReadOptionalBps, ReadOptionalU8, ReadScores, Flags, Has, ParseBody;
    ParseBodyChain(r, Flags(r), BodyBytes(r), rest1, rest2, rest3, rest4, rest5);
  }

  lemma ParseBodyChain(r: Receipt, flags: byte, rest: Bytes, rest1: Bytes, rest2: Bytes, rest3: Bytes, rest4: Bytes, rest5: Bytes)
    requires ReadOptionalBps(Has(flags, 1), rest) == Ok((r.scalar, rest1))
    requires ReadOptionalBps(Has(flags, 2), rest1) == Ok((r.lower, rest2))
    requires ReadOptionalBps(Has(flags, 4), rest2) == Ok((r.upper, rest3))
    requires ReadOptionalU8(Has(flags, 8), rest3) == Ok((r.category, rest4))
    requires ReadScores(Has(flags, 16), rest4) == Ok((r.scores, rest5))
    requires ReadHash(rest5) == Ok(r.canonicalHash)
    ensures ParseBody(r.kind, r.branchIndex, flags, rest) == Ok(r)
  {
    hide ReadOptionalBps, ReadOptionalU8, ReadScores, ReadHash, Has;
  }

  lemma ParseBodyParts(kind: OutputKind, index: nat, flags: byte, rest: Bytes)
    returns (r: Receipt, rest1: Bytes, rest2: Bytes, rest3: Bytes, rest4: Bytes)
    requires ParseBody(kind, index, flags, rest).Ok?
    ensures ParseBody(kind, index, flags, rest) == Ok(r) && r.kind == kind && r.branchIndex == index
    ensures ReadOptionalBps(Has(flags, 1), rest) == Ok((r.scalar, rest1))
    ensures ReadOptionalBps(Has(flags, 2), rest1) == Ok((r.lower, rest2))
    ensures ReadOptionalBps(Has(flags, 4), rest2) == Ok((r.upper, rest3))
    ensures ReadOptionalU8(Has(flags, 8), rest3) == Ok((r.category, rest4))
    ensures ReadScores(Has(flags, 16), rest4) == Ok((r.scores, r.canonicalHash))
    ensures |r.canonicalHash| == 32
  {
    r := ParseBody(kind, index, flags, rest).value;
    rest1 := ReadOptionalBps(Has(flags, 1), rest).value.1;
    rest2 := ReadOptionalBps(Has(flags, 2), rest1).value.1;
    rest3 := ReadOptionalBps(Has(flags, 4), rest2).value.1;
    rest4 := ReadOptionalU8(Has(flags, 8), rest3).value.1;
    hide ReadOptionalBps, ReadOptionalU8, ReadScores, Has;
  }

  lemma ParseOfParts(data: Bytes, kind: OutputKind)
    requires |data| >= 43 && data[..4] == Magic() && data[4] == 2 && data[5] == KindId(kind) && data[10] < 32
    ensures Parse(data) == ParseBody(kind, FromLittleEndian(data[6..10]), data[10], data[11..])
  {
    hide ParseBody, FromLittleEndian;
  }

  lemma FlagsSmall(r: Receipt)
    ensures Flags(r) < 32
  {
  }

  /** The strict parser accepts every encoding and returns what was encoded. */
  lemma ParseOfEncode(r: Receipt)
    requires WellFormed(r)
    ensures Parse(Encode(r)) == Ok(r)
  {
    hide Encode, BodyBytes, ParseBody, Flags, Parse, LittleEndian, FromLittleEndian;
    EncodingLength(r);
    HeaderOfEncode(r);
    FlagsSmall(r);
    ParseOfParts(Encode(r), r.kind);
    U32RoundTrip(r.branchIndex);
    ParseBodyOfBytes(r);
  }

  lemma HeaderOfEncode(r: Receipt)
    ensures var data := Encode(r);
            && |data| >= 11
            && data[..4] == Magic() && data[4] == 2 && data[5] == KindId(r.kind)
            && data[6..10] == LittleEndian(r.branchIndex, 4) && data[10] == Flags(r)
            && data[11..] == BodyBytes(r)
  {
    hide BodyBytes, Flags, LittleEndian;
    var data := Encode(r);
    assert data[..11] == HeaderBytes(r);
    assert HeaderBytes(r)[..4] == Magic();
    assert data[6..10] == HeaderBytes(r)[6..10];
  }

  lemma BodyBytesOfParse(kind: OutputKind, index: nat, flags: byte, rest: Bytes)
    requires flags < 32 && index < U32_LIMIT
    requires ParseBody(kind, index, flags, rest).Ok?
    ensures var r := ParseBody(kind, index, flags, rest).value;
            WellFormed(r) && Flags(r) == flags && BodyBytes(r) == rest
  {
    var r, rest1, rest2, rest3, rest4 := ParseBodyParts(kind, index, flags, rest);
    BodyBytesOfParts(r, flags, rest, rest1, rest2, rest3, rest4);
    hide BpsBytes, CategoryBytes, ScoresBytes, ReadOptionalBps, ReadOptionalU8, ReadScores, Flags, Has, ParseBody;
    BitsDetermineFlags(r, flags);
  }

  lemma BodyBytesOfParts(r: Receipt, flags: byte, rest: Bytes, rest1: Bytes, rest2: Bytes, rest3: Bytes, rest4: Bytes)
    requires r.branchIndex < U32_LIMIT && |r.canonicalHash| == 32
    requires ReadOptionalBps(Has(flags, 1), rest) == Ok((r.scalar, rest1))
    requires ReadOptionalBps(Has(flags, 2), rest1) == Ok((r.lower, rest2))
    requires ReadOptionalBps(Has(flags, 4), rest2) == Ok((r.upper, rest3))
    requires ReadOptionalU8(Has(flags, 8), rest3) == Ok((r.category, rest4))
    requires ReadScores(Has(flags, 16), rest4) == Ok((r.scores, r.canonicalHash))
    ensures WellFormed(r) && BodyBytes(r) == rest
    ensures Has(flags, 1) == r.scalar.Some? && Has(flags, 2) == r.lower.Some? && Has(flags, 4) == r.upper.Some?
    ensures Has(flags, 8) == r.category.Some? && Has(flags, 16) == r.scores.Some?
  {
    hide BpsBytes, CategoryBytes, ScoresBytes, ReadOptionalBps, ReadOptionalU8, ReadScores, Has;
    OptionalBpsBytesOfRead(Has(flags, 1), rest);
    OptionalBpsBytesOfRead(Has(flags, 2), rest1);
    OptionalBpsBytesOfRead(Has(flags, 4), rest2);
    CategoryBytesOfRead(Has(flags, 8), rest3);
    ScoresBytesOfRead(Has(flags, 16), rest4);
  }

  /** Every accepted string is the one encoding of what it decodes to. */
  lemma EncodeOfParse(data: Bytes)
    requires Parse(data).Ok?
    ensures WellFormed(Parse(data).value) && Encode(Parse(data).value) == data
  {
    var r := Parse(data).value;
    Pow256Small();
    FromLittleEndianBound(data[6..10]);
    FromLittleEndianRoundTrip(data[6..10]);
    BodyBytesOfParse(KindOf(data[5]).value, FromLittleEndian(data[6..10]), data[10], data[11..]);
    hide ParseBody, BodyBytes, Flags, WellFormed, LittleEndian, FromLittleEndian;
    var parsed, rest1, rest2, rest3, rest4 := ParseBodyParts(KindOf(data[5]).value, FromLittleEndian(data[6..10]), data[10], data[11..]);
    Reassemble(data);
  }

  lemma Reassemble(data: Bytes)
    requires |data| >= 11
    ensures data == data[..4] + [data[4], data[5]] + data[6..10] + [data[10]] + data[11..]
  {
  }

  /** A string is accepted exactly when it is the encoding of a well-formed receipt: one spelling each. */
  lemma ParseAcceptsEncodings(data: Bytes, r: Receipt)
    ensures Parse(data) == Ok(r) <==> WellFormed(r) && Encode(r) == data
  {
    if Parse(data) == Ok(r) {
      EncodeOfParse(data);
    }
    if WellFormed(r) && Encode(r) == data {
      ParseOfEncode(r);
    }
  }

  // ----- what the parser says of the rest

  /** The order of the header checks; past them only the fields can be at fault. */
  lemma HeaderVerdicts(data: Bytes)
    ensures var r := Parse(data);
            if |data| < 43 then r == Err(TooShort)
            else if data[..4] != [0x4D, 0x46, 0x42, 0x32] then r == Err(BadMagic)
            else if data[4] != 2 then r == Err(UnsupportedVersion(data[4]))
            else if data[5] !in {1, 2, 3} then r == Err(UnknownOutputKind(data[5]))
            else if data[10] > 0x1F then r == Err(UnknownFlagBits(data[10]))
            else r.Err? ==> FieldError(r.error) || r.error == TrailingBytes || r.error.TooManyNarrativeScores?
  {
    if |data| >= 43 && KindOf(data[5]).Some? {
      BodyErrors(KindOf(data[5]).value, FromLittleEndian(data[6..10]), data[10], data[11..]);
    }
    hide ParseBody, FromLittleEndian;
  }

  lemma {:induction false} ScoreListErrors(count: nat, rest: Bytes)
    ensures var r := ReadScoreList(count, rest); r.Err? ==> FieldError(r.error)
  {
    if count > 0 && |rest| >= 4 && ReadBps(rest[4..]).Ok? {
      ScoreListErrors(count - 1, ReadBps(rest[4..]).value.1);
    }
  }

  /** What a field may report: it is cut short, or its value is too large. */
  predicate FieldError(e: Mfb2Error) {
    e == TooShort || e == Mfb2Error.ValueOutOfRange
  }

  lemma FieldErrors(present: bool, rest: Bytes)
    ensures ReadOptionalBps(present, rest).Err? ==> FieldError(ReadOptionalBps(present, rest).error)
    ensures ReadOptionalU8(present, rest).Err? ==> FieldError(ReadOptionalU8(present, rest).error)
  {
  }

  lemma ScoresErrors(present: bool, rest: Bytes)
    ensures var r := ReadScores(present, rest); r.Err? ==> FieldError(r.error) || r.error.TooManyNarrativeScores?
  {
    if rest != [] {
      ScoreListErrors(rest[0], rest[1..]);
    }
    hide ReadScoreList;
  }

  lemma AnyFieldErrors()
    ensures forall present: bool, rest: Bytes :: ReadOptionalBps(present, rest).Err? ==> FieldError(ReadOptionalBps(present, rest).error)
    ensures forall present: bool, rest: Bytes :: ReadOptionalU8(present, rest).Err? ==> FieldError(ReadOptionalU8(present, rest).error)
    ensures forall present: bool, rest: Bytes :: ReadScores(present, rest).Err? ==>
              FieldError(ReadScores(present, rest).error) || ReadScores(present, rest).error.TooManyNarrativeScores?
  {
    hide ReadOptionalBps, ReadOptionalU8, ReadScores, FieldError;
    forall present: bool, rest: Bytes ensures ReadOptionalBps(present, rest).Err? ==> FieldError(ReadOptionalBps(present, rest).error) {
      FieldErrors(present, rest);
    }
    forall present: bool, rest: Bytes ensures ReadOptionalU8(present, rest).Err? ==> FieldError(ReadOptionalU8(present, rest).error) {
      FieldErrors(present, rest);
    }
    forall present: bool, rest: Bytes
      ensures ReadScores(present, rest).Err? ==> FieldError(ReadScores(present, rest).error) || ReadScores(present, rest).error.TooManyNarrativeScores?
    {
      ScoresErrors(present, rest);
    }
  }

  lemma BodyErrors(kind: OutputKind, index: nat, flags: byte, rest: Bytes)
    ensures var r := ParseBody(kind, index, flags, rest);
            r.Err? ==> FieldError(r.error) || r.error == TrailingBytes || r.error.TooManyNarrativeScores?
  {
    hide ReadOptionalBps, ReadOptionalU8, ReadScores, Has;
    FieldErrors(Has(flags, 1), rest);
    var first := ReadOptionalBps(Has(flags, 1), rest);
    if first.Ok? {
      FieldErrors(Has(flags, 2), first.value.1);
      var second := ReadOptionalBps(Has(flags, 2), first.value.1);
      if second.Ok? {
        FieldErrors(Has(flags, 4), second.value.1);
        var third := ReadOptionalBps(Has(flags, 4), second.value.1);
        if third.Ok? {
          TailErrors(kind, index, flags, first.value.0, second.value.0, third.value.0, third.value.1);
          hide ParseTail;
        }
      }
    }
  }

  lemma TailErrors(kind: OutputKind, index: nat, flags: byte, scalar: Option<nat>, lower: Option<nat>, upper: Option<nat>, rest: Bytes)
    ensures var r := ParseTail(kind, index, flags, scalar, lower, upper, rest);
            r.Err? ==> FieldError(r.error) || r.error == TrailingBytes || r.error.TooManyNarrativeScores?
  {
    hide ReadOptionalU8, ReadScores, Has;
    FieldErrors(Has(flags, 8), rest);
    var category := ReadOptionalU8(Has(flags, 8), rest);
    if category.Ok? {
      ScoresErrors(Has(flags, 16), category.value.1);
    }
  }

  /** What is left of the string where the hash is read. */
  lemma TrailingParts(kind: OutputKind, index: nat, flags: byte, rest: Bytes) returns (r: Receipt, extra: Bytes)
    requires index < U32_LIMIT && flags < 32 && ParseBody(kind, index, flags, rest) == Err(TrailingBytes)
    ensures WellFormed(r) && r.kind == kind && r.branchIndex == index && Flags(r) == flags
    ensures extra != [] && rest == BodyBytes(r) + extra
  {
    AnyFieldErrors();
    hide ReadOptionalBps, ReadOptionalU8, ReadScores, Has;
    var first := ReadOptionalBps(Has(flags, 1), rest);
    var second := ReadOptionalBps(Has(flags, 2), first.value.1);
    var third := ReadOptionalBps(Has(flags, 4), second.value.1);
    var category := ReadOptionalU8(Has(flags, 8), third.value.1);
    var scores := ReadScores(Has(flags, 16), category.value.1);
    var last := scores.value.1;
    assert |last| > 32;
    r := Receipt(kind, index, first.value.0, second.value.0, third.value.0, category.value.0, scores.value.0, last[..32]);
    extra := last[32..];
    OptionalBpsBytesOfRead(Has(flags, 1), rest);
    OptionalBpsBytesOfRead(Has(flags, 2), first.value.1);
    OptionalBpsBytesOfRead(Has(flags, 4), second.value.1);
    CategoryBytesOfRead(Has(flags, 8), third.value.1);
    ScoresBytesOfRead(Has(flags, 16), category.value.1);
    BitsDetermineFlags(r, flags);
    hide Flags;
    BodyThen(r, extra, first.value.1, second.value.1, third.value.1, category.value.1, last);
  }

  lemma BodyThen(r: Receipt, extra: Bytes, rest1: Bytes, rest2: Bytes, rest3: Bytes, rest4: Bytes, rest5: Bytes)
    requires rest5 == r.canonicalHash + extra && rest4 == ScoresBytes(r.scores) + rest5 && rest3 == CategoryBytes(r.category) + rest4
    requires rest2 == BpsBytes(r.upper) + rest3 && rest1 == BpsBytes(r.lower) + rest2
    ensures BodyBytes(r) + extra == BpsBytes(r.scalar) + rest1
  {
    hide BpsBytes, CategoryBytes, ScoresBytes;
    assert BodyBytes(r) + extra
        == BpsBytes(r.scalar) + (BpsBytes(r.lower) + (BpsBytes(r.upper) + (CategoryBytes(r.category) + (ScoresBytes(r.scores) + (r.canonicalHash + extra)))));
  }

  lemma IndexFits(r: Receipt)
    requires WellFormed(r)
    ensures r.branchIndex < U32_LIMIT
  {
  }

  lemma TrailingBody(r: Receipt, extra: Bytes)
    requires WellFormed(r) && extra != []
    ensures ParseBody(r.kind, r.branchIndex, Flags(r), BodyBytes(r) + extra) == Err(TrailingBytes)
  {
    FlagBits(r);
    var rest5 := r.canonicalHash + extra;
    var rest4 := ScoresBytes(r.scores) + rest5;
    var rest3 := CategoryBytes(r.category) + rest4;
    var rest2 := BpsBytes(r.upper) + rest3;
    var rest1 := BpsBytes(r.lower) + rest2;
    BodyThen(r, extra, rest1, rest2, rest3, rest4, rest5);
    ReadOptionalBpsOfBytes(r.scalar, rest1);
    ReadOptionalBpsOfBytes(r.lower, rest2);
    ReadOptionalBpsOfBytes(r.upper, rest3);
    ReadCategoryOfBytes(r.category, rest4);
    ReadScoresOfBytes(r.scores, rest5);
    hide BpsBytes, CategoryBytes, ScoresBytes, ReadOptionalBps, ReadOptionalU8, ReadScores, Flags, Has, BodyBytes, WellFormed;
  }

  /** Bytes trail exactly when a receipt ends before the string does. */
  lemma TrailingExactly(data: Bytes)
    ensures Parse(data) == Err(TrailingBytes) <==> exists r, extra :: extra != [] && WellFormed(r) && data == Encode(r) + extra
  {
    hide ParseBody, BodyBytes, Flags, WellFormed, LittleEndian, FromLittleEndian;
    if Parse(data) == Err(TrailingBytes) {
      var index := FromLittleEndian(data[6..10]);
      Pow256Small();
      FromLittleEndianBound(data[6..10]);
      FromLittleEndianRoundTrip(data[6..10]);
      var r, extra := TrailingParts(KindOf(data[5]).value, index, data[10], data[11..]);
      Reassemble(data);
      assert data == Encode(r) + extra;
    }
    if r, extra :| extra != [] && WellFormed(r) && data == Encode(r) + extra {
      HeaderOfEncode(r);
      EncodingLength(r);
      FlagsSmall(r);
      IndexFits(r);
      U32RoundTrip(r.branchIndex);
      hide Encode;
      assert data[4] == Encode(r)[4] && data[5] == Encode(r)[5] && data[10] == Encode(r)[10];
      assert data[..4] == Encode(r)[..4] && data[6..10] == Encode(r)[6..10] && data[11..] == Encode(r)[11..] + extra;
      ParseOfParts(data, r.kind);
      TrailingBody(r, extra);
    }
  }
}

/** The two parsers as the source runs them: a cursor moved over the bytes. */
module Mfb2Parsers {
  import opened Results
  import opened ByteStrings
  import opened Mfb2

  /** What `parse_branch_result_bytes` returns, in `aggregate.py` and in the guest. */
  function StrictParse(h: Hash, data: Bytes): Result<BranchResult, Mfb2Error> {
    var r :- Parse(data);
    Ok(BranchResult(r.branchIndex, r.kind, r.scalar, r.category, r.canonicalHash, h(data)))
  }

  function ReadU8At(data: Bytes, offset: nat): Result<(byte, nat), Mfb2Error> {
    if offset + 1 > |data| then Err(TooShort) else Ok((data[offset], offset + 1))
  }

  function ReadBpsAt(data: Bytes, offset: nat): Result<(nat, nat), Mfb2Error> {
    if offset + 2 > |data| then Err(TooShort)
    else
      var value := data[offset] as int + 256 * data[offset + 1] as int;
      if value > BPS_MAX then Err(Mfb2Error.ValueOutOfRange) else Ok((value, offset + 2))
  }

  lemma ReadBpsAtIsReadBps(data: Bytes, offset: nat)
    requires offset <= |data|
    ensures match ReadBpsAt(data, offset)
            case Ok(read) => read.1 <= |data| && ReadBps(data[offset..]) == Ok((read.0, data[read.1..]))
            case Err(e) => ReadBps(data[offset..]) == Err(e)
  {
    if offset + 2 <= |data| {
      var two := data[offset..][..2];
      assert two[1..] == [data[offset + 1]] && two[1..][1..] == [];
      assert FromLittleEndian(two[1..]) == data[offset + 1] as int;
      assert FromLittleEndian(two) == data[offset] as int + 256 * data[offset + 1] as int;
      assert data[offset..][2..] == data[offset + 2..];
    }
  }

  /** The cursor form of an optional basis-point field. */
  method OptionalBps(data: Bytes, offset: nat, present: bool) returns (value: Option<nat>, next: nat, error: Option<Mfb2Error>)
    requires offset <= |data|
    ensures error.Some? ==> ReadOptionalBps(present, data[offset..]) == Err(error.value)
    ensures error.None? ==> next <= |data| && ReadOptionalBps(present, data[offset..]) == Ok((value, data[next..]))
  {
    value, next, error := None, offset, None;
    if present {
      ReadBpsAtIsReadBps(data, offset);
      match ReadBpsAt(data, offset)
      case Ok(read) => value, next := Some(read.0), read.1;
      case Err(e) => error := Some(e);
    }
  }

  ghost function AfterScoreList(count: nat, rest: Bytes): Result<Bytes, Mfb2Error> {
    var (scores, rest') :- ReadScoreList(count, rest);
    Ok(rest')
  }

  /** The cursor form of the score list: four key bytes are stepped over, then a value is read. */
  method SkipScores(data: Bytes, offset: nat, count: nat) returns (next: nat, error: Option<Mfb2Error>)
    requires offset <= |data|
    ensures error.Some? ==> AfterScoreList(count, data[offset..]) == Err(error.value)
    ensures error.None? ==> next <= |data| && AfterScoreList(count, data[offset..]) == Ok(data[next..])
  {
    next, error := offset, None;
    var left: nat := count;
    while left > 0
      invariant next <= |data|
      invariant AfterScoreList(count, data[offset..]) == AfterScoreList(left, data[next..])
      decreases left
    {
      if next + 4 > |data| {
        error := Some(TooShort);
        return;
      }
      assert data[next..][4..] == data[next + 4..];
      ReadBpsAtIsReadBps(data, next + 4);
      match ReadBpsAt(data, next + 4) {
        case Err(e) =>
          error := Some(e);
          return;
        case Ok(read) =>
          next := read.1;
      }
      left := left - 1;
    }
  }

  /** The strict parser: the bytes are read once, left to right, every field checked. */
  method ParseBranchResultBytes(h: Hash, data: Bytes) returns (r: Result<BranchResult, Mfb2Error>)
    ensures r == StrictParse(h, data)
  {
    if |data| < 4 + 1 + 1 + 4 + 1 + 32 {
      return Err(TooShort);
    }
    if data[..4] != Magic() {
      return Err(BadMagic);
    }
    var version := data[4];
    if version != 2 {
      return Err(UnsupportedVersion(version));
    }
    var kind := KindOf(data[5]);
    if kind.None? {
      return Err(UnknownOutputKind(data[5]));
    }
    var branchIndex := FromLittleEndian(data[6..10]);
    var flags := data[10];
    if flags >= 32 {
      return Err(UnknownFlagBits(flags));
    }
    r := ParseFields(h, data, kind.value, branchIndex, flags);
  }

  ghost predicate Projects(h: Hash, data: Bytes, full: Result<Receipt, Mfb2Error>, r: Result<BranchResult, Mfb2Error>) {
    match full
    case Err(e) => r == Err(e)
    case Ok(w) => r == Ok(BranchResult(w.branchIndex, w.kind, w.scalar, w.category, w.canonicalHash, h(data)))
  }

  /** The fields after the header. */
  method ParseFields(h: Hash, data: Bytes, kind: OutputKind, branchIndex: nat, flags: byte)
    returns (r: Result<BranchResult, Mfb2Error>)
    requires |data| >= 11
    ensures Projects(h, data, ParseBody(kind, branchIndex, flags, data[11..]), r)
  {
    hide ReadOptionalBps, ParseTail, Has;
    var scalar, offset, error := OptionalBps(data, 11, Has(flags, 1));
    if error.Some? {
      return Err(error.value);
    }
    var lower, upper;
    lower, offset, error := OptionalBps(data, offset, Has(flags, 2));
    if error.Some? {
      return Err(error.value);
    }
    upper, offset, error := OptionalBps(data, offset, Has(flags, 4));
    if error.Some? {
      return Err(error.value);
    }
    r := ParseLabelAndScores(h, data, offset, kind, branchIndex, flags, scalar, lower, upper);
  }

  method ParseLabelAndScores(h: Hash, data: Bytes, start: nat, kind: OutputKind, branchIndex: nat, flags: byte,
                             scalar: Option<nat>, ghost lower: Option<nat>, ghost upper: Option<nat>)
    returns (r: Result<BranchResult, Mfb2Error>)
    requires start <= |data|
    ensures Projects(h, data, ParseTail(kind, branchIndex, flags, scalar, lower, upper, data[start..]), r)
  {
    hide ReadScoreList, Has;
    var offset := start;
    var category: Option<nat> := None;
    if Has(flags, 8) {
      var read := ReadU8At(data, offset);
      if read.Err? {
        return Err(read.error);
      }
      assert data[offset..][1..] == data[offset + 1..];
      category, offset := Some(read.value.0), read.value.1;
    }
    if Has(flags, 16) {
      var count := ReadU8At(data, offset);
      if count.Err? {
        return Err(count.error);
      }
      if count.value.0 == 0 || count.value.0 > MAX_SCORES {
        return Err(TooManyNarrativeScores(count.value.0));
      }
      assert data[offset..][1..] == data[offset + 1..];
      var next, error := SkipScores(data, count.value.1, count.value.0);
      if error.Some? {
        return Err(error.value);
      }
      offset := next;
    }
    if offset + 32 > |data| {
      return Err(TooShort);
    }
    if offset + 32 != |data| {
      return Err(TrailingBytes);
    }
    r := Ok(BranchResult(branchIndex, kind, scalar, category, data[offset..], h(data)));
  }

  // ----- the lenient decoder: `parse_branch_output_result_bytes`

  /** `_read_u16`: truncation is an error, the range is not checked. */
  function LenientU16(present: bool, rest: Bytes): Option<(Option<nat>, Bytes)> {
    if !present then Some((None, rest))
    else if |rest| < 2 then None
    else Some((Some(FromLittleEndian(rest[..2])), rest[2..]))
  }

  /** `data[offset]`: past the end is an error. */
  function LenientU8(present: bool, rest: Bytes): Option<(Option<nat>, Bytes)> {
    if !present then Some((None, rest))
    else if rest == [] then None
    else Some((Some(rest[0]), rest[1..]))
  }

  /** Any count, and a key cut short by the end only fails at the value after it. */
  function LenientScoreList(count: nat, rest: Bytes): Option<(seq<Score>, Bytes)> {
    if count == 0 then Some(([], rest))
    else if |rest| < 6 then None
    else
      match LenientScoreList(count - 1, rest[6..])
      case None => None
      case Some(more) => Some(([Score(rest[..4], FromLittleEndian(rest[4..6]))] + more.0, more.1))
  }

  function LenientScores(present: bool, rest: Bytes): Option<(Option<seq<Score>>, Bytes)> {
    if !present then Some((None, rest))
    else if rest == [] then None
    else
      match LenientScoreList(rest[0], rest[1..])
      case None => None
      case Some(list) => Some((Some(list.0), list.1))
  }

  function LenientTail(kind: OutputKind, index: nat, flags: byte, scalar: Option<nat>, lower: Option<nat>, upper: Option<nat>,
                       rest: Bytes): Option<Receipt>
  {
    match LenientU8(Has(flags, 8), rest)
    case None => None
    case Some(category) =>
      match LenientScores(Has(flags, 16), category.1)
      case None => None
      case Some(scores) =>
        if |scores.1| != 32 then None
        else Some(Receipt(kind, index, scalar, lower, upper, category.0, scores.0, scores.1))
  }

  function LenientBody(kind: OutputKind, index: nat, flags: byte, rest: Bytes): Option<Receipt> {
    match LenientU16(Has(flags, 1), rest)
    case None => None
    case Some(scalar) =>
      match LenientU16(Has(flags, 2), scalar.1)
      case None => None
      case Some(lower) =>
        match LenientU16(Has(flags, 4), lower.1)
        case None => None
        case Some(upper) => LenientTail(kind, index, flags, scalar.0, lower.0, upper.0, upper.1)
  }

  function LenientParse(data: Bytes): Option<Receipt> {
    if |data| < 43 || data[..4] != Magic() || data[4] != 2 || KindOf(data[5]).None? then None
    else LenientBody(KindOf(data[5]).value, FromLittleEndian(data[6..10]), data[10], data[11..])
  }

  lemma LenientU16Agrees(present: bool, rest: Bytes)
    requires ReadOptionalBps(present, rest).Ok?
    ensures LenientU16(present, rest) == Some(ReadOptionalBps(present, rest).value)
  {
  }

  lemma {:induction false} LenientScoreListAgrees(count: nat, rest: Bytes)
    requires ReadScoreList(count, rest).Ok?
    ensures LenientScoreList(count, rest) == Some(ReadScoreList(count, rest).value)
  {
    if count > 0 {
      assert rest[4..][..2] == rest[4..6] && rest[4..][2..] == rest[6..];
      LenientScoreListAgrees(count - 1, rest[6..]);
    }
  }

  lemma LenientScoresAgrees(present: bool, rest: Bytes)
    requires ReadScores(present, rest).Ok?
    ensures LenientScores(present, rest) == Some(ReadScores(present, rest).value)
  {
    if present {
      LenientScoreListAgrees(rest[0], rest[1..]);
    }
  }

  /** The lenient decoder returns what the strict parser does on every string the strict one accepts;
      and the strict one accepts a string exactly when the lenient result is well-formed and re-encodes
      to that string. */
  lemma LenientAgreesWithStrict(data: Bytes, r: Receipt)
    ensures Parse(data) == Ok(r) <==> LenientParse(data) == Some(r) && WellFormed(r) && Encode(r) == data
  {
    ParseAcceptsEncodings(data, r);
    if Parse(data) == Ok(r) {
      LenientBodyAgrees(KindOf(data[5]).value, FromLittleEndian(data[6..10]), data[10], data[11..]);
    }
    hide ParseBody, WellFormed, Encode, LenientBody;
  }

  lemma LenientBodyAgrees(kind: OutputKind, index: nat, flags: byte, rest: Bytes)
    requires ParseBody(kind, index, flags, rest).Ok?
    ensures LenientBody(kind, index, flags, rest) == Some(ParseBody(kind, index, flags, rest).value)
  {
    var r, rest1, rest2, rest3, rest4 := ParseBodyParts(kind, index, flags, rest);
    LenientU16Agrees(Has(flags, 1), rest);
    LenientU16Agrees(Has(flags, 2), rest1);
    LenientU16Agrees(Has(flags, 4), rest2);
    LenientScoresAgrees(Has(flags, 16), rest4);
    assert LenientU8(Has(flags, 8), rest3) == Some((r.category, rest4));
    hide LenientU16, LenientU8, LenientScores, Has, ReadOptionalBps, ReadOptionalU8, ReadScores, ParseBody;
  }

  // ----- exactly what the lenient decoder takes

  predicate LooseU16(o: Option<nat>) {
    o.Some? ==> o.value < 0x1_0000
  }

  predicate LooseScores(scores: seq<Score>) {
    forall i :: 0 <= i < |scores| ==> |scores[i].keyHash| == 4 && scores[i].bps < 0x1_0000
  }

  /** A receipt whose fields fit their bytes, whatever their range. */
  predicate Loose(r: Receipt) {
    && r.branchIndex < U32_LIMIT && LooseU16(r.scalar) && LooseU16(r.lower) && LooseU16(r.upper)
    && (r.category.Some? ==> r.category.value < 256)
    && (r.scores.Some? ==> |r.scores.value| < 256 && LooseScores(r.scores.value))
    && |r.canonicalHash| == 32
  }

  lemma U16Bytes(v: nat, rest: Bytes)
    requires v < 0x1_0000
    ensures |LittleEndian(v, 2)| == 2 && FromLittleEndian((LittleEndian(v, 2) + rest)[..2]) == v && (LittleEndian(v, 2) + rest)[2..] == rest
  {
    Pow256Small();
    LittleEndianRoundTrip(v, 2);
    assert (LittleEndian(v, 2) + rest)[..2] == LittleEndian(v, 2);
  }

  lemma U16OfBytes(rest: Bytes)
    requires |rest| >= 2
    ensures FromLittleEndian(rest[..2]) < 0x1_0000 && rest == LittleEndian(FromLittleEndian(rest[..2]), 2) + rest[2..]
  {
    Pow256Small();
    FromLittleEndianBound(rest[..2]);
    FromLittleEndianRoundTrip(rest[..2]);
  }

  lemma LenientU16Exactly(present: bool, rest: Bytes, o: Option<nat>, next: Bytes)
    ensures LenientU16(present, rest) == Some((o, next)) <==> o.Some? == present && LooseU16(o) && rest == BpsBytes(o) + next
  {
    if present {
      if |rest| >= 2 {
        U16OfBytes(rest);
      }
      if o.Some? && o.value < 0x1_0000 {
        U16Bytes(o.value, next);
      }
    } else if o == None {
      assert BpsBytes(o) + next == next;
    }
  }

  lemma LenientU8Exactly(present: bool, rest: Bytes, o: Option<nat>, next: Bytes)
    ensures LenientU8(present, rest) == Some((o, next))
       <==> o.Some? == present && (o.Some? ==> o.value < 256) && rest == CategoryBytes(o) + next
  {
    if o == None {
      assert CategoryBytes(o) + next == next;
    } else {
      assert (CategoryBytes(o) + next)[1..] == next;
      assert rest != [] ==> rest == [rest[0]] + rest[1..];
    }
  }

  lemma LenientScoreStep(s: Score, more: seq<Score>, next: Bytes)
    requires |s.keyHash| == 4 && s.bps < 0x1_0000
    ensures var rest := ScoreListBytes([s] + more) + next;
            && |rest| >= 6 && rest[..4] == s.keyHash && FromLittleEndian(rest[4..6]) == s.bps && rest[6..] == ScoreListBytes(more) + next
  {
    var tail := ScoreListBytes(more) + next;
    U16Bytes(s.bps, tail);
    assert ([s] + more)[1..] == more;
    var rest := ScoreListBytes([s] + more) + next;
    assert rest == s.keyHash + (LittleEndian(s.bps, 2) + tail);
    assert rest[4..] == LittleEndian(s.bps, 2) + tail && rest[4..6] == rest[4..][..2] && rest[6..] == rest[4..][2..];
  }

  lemma LenientScoreJoins(rest: Bytes, more: seq<Score>, next: Bytes)
    requires |rest| >= 6 && rest[6..] == ScoreListBytes(more) + next && LooseScores(more)
    ensures var s := Score(rest[..4], FromLittleEndian(rest[4..6]));
            LooseScores([s] + more) && rest == ScoreListBytes([s] + more) + next
  {
    var s := Score(rest[..4], FromLittleEndian(rest[4..6]));
    U16OfBytes(rest[4..]);
    assert rest[4..][..2] == rest[4..6] && rest[4..][2..] == rest[6..];
    assert ([s] + more)[1..] == more;
    assert rest == rest[..4] + rest[4..];
    hide LittleEndian, FromLittleEndian;
    assert ScoreListBytes([s] + more) + next == rest[..4] + (LittleEndian(s.bps, 2) + (ScoreListBytes(more) + next));
  }

  lemma {:induction false} LenientScoreListExactly(count: nat, rest: Bytes, scores: seq<Score>, next: Bytes)
    ensures LenientScoreList(count, rest) == Some((scores, next))
       <==> |scores| == count && LooseScores(scores) && rest == ScoreListBytes(scores) + next
    decreases count
  {
    if count == 0 {
      assert scores == [] ==> ScoreListBytes(scores) + next == next;
    } else {
      if LenientScoreList(count, rest) == Some((scores, next)) {
        var tail := LenientScoreList(count - 1, rest[6..]).value;
        LenientScoreListExactly(count - 1, rest[6..], tail.0, tail.1);
        assert scores == [Score(rest[..4], FromLittleEndian(rest[4..6]))] + tail.0 && next == tail.1;
        hide LenientScoreList, ScoreListBytes;
        LenientScoreJoins(rest, tail.0, next);
      }
      if |scores| == count && LooseScores(scores) && rest == ScoreListBytes(scores) + next {
        assert scores == [scores[0]] + scores[1..];
        LenientScoreStep(scores[0], scores[1..], next);
        LenientScoreListExactly(count - 1, rest[6..], scores[1..], next);
      }
    }
  }

  lemma LenientScoresExactly(present: bool, rest: Bytes, o: Option<seq<Score>>, next: Bytes)
    ensures LenientScores(present, rest) == Some((o, next))
       <==> o.Some? == present && (o.Some? ==> |o.value| < 256 && LooseScores(o.value)) && rest == ScoresBytes(o) + next
  {
    hide ScoreListBytes, LenientScoreList, LooseScores;
    if o == None {
      assert ScoresBytes(o) + next == next;
    } else if rest != [] {
      LenientScoreListExactly(rest[0], rest[1..], o.value, next);
      CountedSplits(rest, |o.value| % 256, ScoreListBytes(o.value), next);
    }
  }

  lemma CountedSplits(rest: Bytes, count: byte, list: Bytes, next: Bytes)
    requires rest != []
    ensures rest == ([count] + list) + next <==> rest[0] == count && rest[1..] == list + next
  {
    var all := ([count] + list) + next;
    assert all[0] == count && all[1..] == list + next;
    assert rest == [rest[0]] + rest[1..] && all == [all[0]] + all[1..];
  }

  /** Which fields the flag byte announces. */
  predicate Announces(flags: byte, r: Receipt) {
    && Has(flags, 1) == r.scalar.Some? && Has(flags, 2) == r.lower.Some? && Has(flags, 4) == r.upper.Some?
    && Has(flags, 8) == r.category.Some? && Has(flags, 16) == r.scores.Some?
  }

  lemma LenientTailExactly(kind: OutputKind, index: nat, flags: byte, rest: Bytes, r: Receipt)
    ensures LenientTail(kind, index, flags, r.scalar, r.lower, r.upper, rest) == Some(r)
       <==> && r.kind == kind && r.branchIndex == index && Has(flags, 8) == r.category.Some? && Has(flags, 16) == r.scores.Some?
            && (r.category.Some? ==> r.category.value < 256)
            && (r.scores.Some? ==> |r.scores.value| < 256 && LooseScores(r.scores.value))
            && |r.canonicalHash| == 32 && rest == CategoryBytes(r.category) + (ScoresBytes(r.scores) + r.canonicalHash)
  {
    hide LenientU8, LenientScores, Has, LooseScores, CategoryBytes, ScoresBytes;
    var own := ScoresBytes(r.scores) + r.canonicalHash;
    LenientU8Exactly(Has(flags, 8), rest, r.category, own);
    LenientScoresExactly(Has(flags, 16), own, r.scores, r.canonicalHash);
    var category := LenientU8(Has(flags, 8), rest);
    if category.Some? {
      LenientU8Exactly(Has(flags, 8), rest, category.value.0, category.value.1);
      var scores := LenientScores(Has(flags, 16), category.value.1);
      if scores.Some? {
        LenientScoresExactly(Has(flags, 16), category.value.1, scores.value.0, scores.value.1);
      }
    }
  }

  lemma LenientBodyExactly(kind: OutputKind, index: nat, flags: byte, rest: Bytes, r: Receipt)
    requires index < U32_LIMIT
    ensures LenientBody(kind, index, flags, rest) == Some(r)
       <==> Loose(r) && r.kind == kind && r.branchIndex == index && Announces(flags, r) && rest == BodyBytes(r)
  {
    hide LenientU16, LenientTail, Has, LooseScores, CategoryBytes, ScoresBytes, BpsBytes;
    var rest3 := CategoryBytes(r.category) + (ScoresBytes(r.scores) + r.canonicalHash);
    var rest2 := BpsBytes(r.upper) + rest3;
    var rest1 := BpsBytes(r.lower) + rest2;
    LenientU16Exactly(Has(flags, 1), rest, r.scalar, rest1);
    LenientU16Exactly(Has(flags, 2), rest1, r.lower, rest2);
    LenientU16Exactly(Has(flags, 4), rest2, r.upper, rest3);
    LenientTailExactly(kind, index, flags, rest3, r);
    if LenientBody(kind, index, flags, rest) == Some(r) {
      var scalar := LenientU16(Has(flags, 1), rest).value;
      var lower := LenientU16(Has(flags, 2), scalar.1).value;
      var upper := LenientU16(Has(flags, 4), lower.1).value;
      LenientTailKeeps(kind, index, flags, scalar.0, lower.0, upper.0, upper.1);
      LenientU16Exactly(Has(flags, 1), rest, scalar.0, scalar.1);
      LenientU16Exactly(Has(flags, 2), scalar.1, lower.0, lower.1);
      LenientU16Exactly(Has(flags, 4), lower.1, upper.0, upper.1);
      LenientTailExactly(kind, index, flags, upper.1, r);
    }
  }

  lemma LenientTailKeeps(kind: OutputKind, index: nat, flags: byte, scalar: Option<nat>, lower: Option<nat>, upper: Option<nat>, rest: Bytes)
    ensures var r := LenientTail(kind, index, flags, scalar, lower, upper, rest);
            r.Some? ==> r.value.scalar == scalar && r.value.lower == lower && r.value.upper == upper
  {
    hide LenientU8, LenientScores, Has;
  }

  lemma EvenIgnored(k: nat, n: nat)
    ensures (2 * k + n) % 2 == n % 2
  {
  }

  lemma HighBitsShift(q: nat, low: nat)
    ensures (32 * q + low) / 2 == 2 * (8 * q) + low / 2 && (32 * q + low) / 4 == 2 * (4 * q) + low / 4
    ensures (32 * q + low) / 8 == 2 * (2 * q) + low / 8 && (32 * q + low) / 16 == 2 * q + low / 16
  {
  }

  lemma HighBitsIgnored(flags: byte)
    ensures Has(flags % 32, 1) == Has(flags, 1) && Has(flags % 32, 2) == Has(flags, 2) && Has(flags % 32, 4) == Has(flags, 4)
    ensures Has(flags % 32, 8) == Has(flags, 8) && Has(flags % 32, 16) == Has(flags, 16)
  {
    var q, low := flags / 32, flags % 32;
    HighBitsShift(q, low);
    EvenIgnored(16 * q, low);
    EvenIgnored(8 * q, low / 2);
    EvenIgnored(4 * q, low / 4);
    EvenIgnored(2 * q, low / 8);
    EvenIgnored(q, low / 16);
  }

  lemma AnnouncesExactly(flags: byte, r: Receipt)
    ensures Announces(flags, r) <==> flags % 32 == Flags(r)
  {
    HighBitsIgnored(flags);
    FlagBits(r);
    hide Has, Flags;
    if Announces(flags, r) {
      BitsDetermineFlags(r, flags % 32);
    }
  }

  lemma LenientHead(data: Bytes, r: Receipt, flags: byte)
    requires Loose(r) && |data| >= 43 && data[..4] == Magic() && data[4] == 2 && KindOf(data[5]) == Some(r.kind)
    requires FromLittleEndian(data[6..10]) == r.branchIndex && data[11..] == BodyBytes(r) && flags == Flags(r)
    ensures data[10 := flags] == Encode(r)
  {
    FromLittleEndianRoundTrip(data[6..10]);
    hide BodyBytes, Flags, LittleEndian, FromLittleEndian;
    Reassemble(data[10 := flags]);
    assert data[10 := flags][11..] == data[11..] && data[10 := flags][6..10] == data[6..10];
  }

  lemma LenientUnhead(data: Bytes, r: Receipt)
    requires Loose(r) && |data| > 10 && data[10 := Flags(r)] == Encode(r)
    ensures |data| >= 43 && data[..4] == Magic() && data[4] == 2 && KindOf(data[5]) == Some(r.kind)
    ensures FromLittleEndian(data[6..10]) == r.branchIndex && data[11..] == BodyBytes(r)
  {
    HeaderOfEncode(r);
    U32RoundTrip(r.branchIndex);
    var encoded := Encode(r);
    hide Encode, Flags, LittleEndian, FromLittleEndian;
    assert data[..4] == encoded[..4] && data[6..10] == encoded[6..10] && data[11..] == encoded[11..];
    assert |BodyBytes(r)| >= 32;
  }

  /** The lenient decoder takes a string for a receipt if and only if the string is that receipt's encoding, up to
      the three high bits of the flag byte, where the fields only have to fit their bytes. */
  lemma LenientExactly(data: Bytes, r: Receipt)
    ensures LenientParse(data) == Some(r)
       <==> Loose(r) && |data| > 10 && data[10] % 32 == Flags(r) && data[10 := Flags(r)] == Encode(r)
  {
    hide BodyBytes, Flags, Encode, LenientBody, Announces, FromLittleEndian;
    if LenientParse(data) == Some(r) {
      Pow256Small();
      FromLittleEndianBound(data[6..10]);
      LenientBodyExactly(KindOf(data[5]).value, FromLittleEndian(data[6..10]), data[10], data[11..], r);
      AnnouncesExactly(data[10], r);
      LenientHead(data, r, Flags(r));
    }
    if Loose(r) && |data| > 10 && data[10] % 32 == Flags(r) && data[10 := Flags(r)] == Encode(r) {
      LenientUnhead(data, r);
      AnnouncesExactly(data[10], r);
      LenientBodyExactly(r.kind, r.branchIndex, data[10], data[11..], r);
    }
  }

  method LenientFieldAt(data: Bytes, offset: nat, present: bool) returns (ok: bool, value: Option<nat>, next: nat)
    requires offset <= |data|
    ensures ok ==> next <= |data| && LenientU16(present, data[offset..]) == Some((value, data[next..]))
    ensures !ok ==> LenientU16(present, data[offset..]) == None
  {
    ok, value, next := true, None, offset;
    if present {
      if offset + 2 > |data| {
        return false, None, offset;
      }
      assert data[offset..][..2] == data[offset..offset + 2] && data[offset..][2..] == data[offset + 2..];
      value, next := Some(FromLittleEndian(data[offset..offset + 2])), offset + 2;
    }
  }

  lemma {:induction false} LenientListStep(done: seq<Score>, left: nat, rest: Bytes)
    requires left > 0 && |rest| >= 6
    ensures var score := Score(rest[..4], FromLittleEndian(rest[4..6]));
            Prepend(done, LenientScoreList(left, rest)) == Prepend(done + [score], LenientScoreList(left - 1, rest[6..]))
  {
    var score := Score(rest[..4], FromLittleEndian(rest[4..6]));
    var tail := LenientScoreList(left - 1, rest[6..]);
    if tail.Some? {
      assert done + ([score] + tail.value.0) == (done + [score]) + tail.value.0;
    }
  }

  function Prepend(done: seq<Score>, r: Option<(seq<Score>, Bytes)>): Option<(seq<Score>, Bytes)> {
    match r
    case None => None
    case Some(list) => Some((done + list.0, list.1))
  }

  lemma PrependNothing(r: Option<(seq<Score>, Bytes)>)
    ensures Prepend([], r) == r
  {
    if r.Some? {
      assert [] + r.value.0 == r.value.0;
    }
  }

  method LenientScoresAt(data: Bytes, offset: nat, count: nat) returns (ok: bool, scores: seq<Score>, next: nat)
    requires offset <= |data|
    ensures ok ==> next <= |data| && LenientScoreList(count, data[offset..]) == Some((scores, data[next..]))
    ensures !ok ==> LenientScoreList(count, data[offset..]) == None
  {
    ok, scores, next := true, [], offset;
    var left: nat := count;
    PrependNothing(LenientScoreList(count, data[offset..]));
    while left > 0
      invariant next <= |data|
      invariant LenientScoreList(count, data[offset..]) == Prepend(scores, LenientScoreList(left, data[next..]))
      decreases left
    {
      if next + 6 > |data| {
        return false, [], next;
      }
      ghost var rest := data[next..];
      assert rest[..4] == data[next..next + 4] && rest[4..6] == data[next + 4..next + 6] && rest[6..] == data[next + 6..];
      LenientListStep(scores, left, rest);
      scores := scores + [Score(data[next..next + 4], FromLittleEndian(data[next + 4..next + 6]))];
      next := next + 6;
      left := left - 1;
    }
    assert scores + [] == scores;
  }

  /** The lenient decoder with its moving offset. */
  method ParseBranchOutputResultBytes(data: Bytes) returns (r: Option<Receipt>)
    ensures r == LenientParse(data)
  {
    if |data| < 4 + 1 + 1 + 4 + 1 + 32 || data[..4] != Magic() || data[4] != 2 || KindOf(data[5]).None? {
      return None;
    }
    var kind, index, flags := KindOf(data[5]).value, FromLittleEndian(data[6..10]), data[10];
    hide LenientU16, LenientScoreList, Has;
    var ok, scalar, offset := LenientFieldAt(data, 11, Has(flags, 1));
    if !ok {
      return None;
    }
    var lower, upper;
    ok, lower, offset := LenientFieldAt(data, offset, Has(flags, 2));
    if !ok {
      return None;
    }
    ok, upper, offset := LenientFieldAt(data, offset, Has(flags, 4));
    if !ok {
      return None;
    }
    r := LenientTailAt(data, offset, kind, index, flags, scalar, lower, upper);
  }

  method LenientTailAt(data: Bytes, start: nat, kind: OutputKind, index: nat, flags: byte,
                       scalar: Option<nat>, lower: Option<nat>, upper: Option<nat>)
    returns (r: Option<Receipt>)
    requires start <= |data|
    ensures r == LenientTail(kind, index, flags, scalar, lower, upper, data[start..])
  {
    hide LenientScoreList, Has;
    var offset := start;
    var category: Option<nat> := None;
    if Has(flags, 8) {
      if offset >= |data| {
        return None;
      }
      assert data[offset..][1..] == data[offset + 1..];
      category, offset := Some(data[offset]), offset + 1;
    }
    var scores: Option<seq<Score>> := None;
    if Has(flags, 16) {
      if offset >= |data| {
        return None;
      }
      assert data[offset..][1..] == data[offset + 1..];
      var ok, list, next := LenientScoresAt(data, offset + 1, data[offset]);
      if !ok {
        return None;
      }
      scores, offset := Some(list), next;
    }
    if offset + 32 != |data| {
      return None;
    }
    r := Some(Receipt(kind, index, scalar, lower, upper, category, scores, data[offset..]));
  }
}

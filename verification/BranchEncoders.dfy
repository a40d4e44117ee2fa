/** The two MFB2 encoders: the backend's, over a validated output, and the guest's, over the JSON
    document of that output. */
module BranchEncoders {
  import opened Results
  import opened ByteStrings
  import opened Sorting
  import opened Mfb2
  import Utf8

  // ----- dictionaries in key order

  ghost function SeqOfSet<T>(s: set<T>): (r: seq<T>)
    ensures multiset(r) == multiset(s)
    ensures |r| == |s|
  {
    if s == {} then []
    else
      var x :| x in s;
      assert s == (s - {x}) + {x};
      [x] + SeqOfSet(s - {x})
  }

  /** The keys in the order Python's `sorted` gives them. */
  ghost function SortedKeys<T>(m: map<string, T>): (r: seq<string>)
    ensures |r| == |m|
    ensures forall k :: k in r <==> k in m
  {
    var keys := SeqOfSet(m.Keys);
    var sorted := Sort(keys, Utf8.CodePointLeq);
    assert forall k :: k in sorted <==> k in multiset(sorted);
    assert forall k :: k in m.Keys <==> k in multiset(m.Keys);
    sorted
  }

  /** The keys in the order the guest's `BTreeMap` gives them. */
  ghost function ByteOrderedKeys<T>(m: map<string, T>): seq<string> {
    Sort(SeqOfSet(m.Keys), Utf8.Utf8Leq)
  }

  lemma KeyOrdersAgree<T>(m: map<string, T>)
    ensures ByteOrderedKeys(m) == SortedKeys(m)
  {
    Utf8.SortsAgree(SeqOfSet(m.Keys));
  }

  /** Any listing of the keys, sorted, is `SortedKeys`. */
  method ListKeys<T>(m: map<string, T>) returns (keys: seq<string>)
    ensures keys == SortedKeys(m)
  {
    var left := m.Keys;
    keys := [];
    while left != {}
      invariant left <= m.Keys
      invariant multiset(keys) == multiset(m.Keys - left)
      decreases left
    {
      var k :| k in left;
      assert m.Keys - (left - {k}) == (m.Keys - left) + {k};
      keys := keys + [k];
      left := left - {k};
    }
    assert m.Keys - {} == m.Keys;
    Utf8.CodePointOrderIsTotal();
    SortOfPermutation(keys, SeqOfSet(m.Keys), Utf8.CodePointLeq);
    keys := Sort(keys, Utf8.CodePointLeq);
  }

  function ScoreOf(h: Hash, key: string, value: nat): Score {
    Score(h(Utf8.Encode(key))[..4], value)
  }

  // ----- the backend's encoder

  /** The fields of a `BranchOutput` the encoder reads. */
  datatype BranchOutput = BranchOutput(
    kind: OutputKind,
    branchIndex: int,
    scalar: Option<int>,
    lower: Option<int>,
    upper: Option<int>,
    category: Option<int>,
    scores: Option<map<string, int>>)

  datatype EncodeError =
    | IndexDoesNotFit
    | BpsOutOfRange(field: string)
    | CategoryDoesNotFit
    | TooManyScores
    | ResultTooLong

  predicate Bps(v: int) {
    0 <= v <= BPS_MAX
  }

  function CheckBps(o: Option<int>, field: string): Result<Option<nat>, EncodeError> {
    if o.None? then Ok(None)
    else if Bps(o.value) then Ok(Some(o.value))
    else Err(BpsOutOfRange(field))
  }

  function CheckCategory(o: Option<int>): Result<Option<nat>, EncodeError> {
    if o.None? then Ok(None)
    else if 0 <= o.value < 256 then Ok(Some(o.value))
    else Err(CategoryDoesNotFit)
  }

  function ScoresOrEmpty(o: BranchOutput): map<string, int> {
    if o.scores.Some? then o.scores.value else map[]
  }

  function CheckScores(h: Hash, scores: map<string, int>, keys: seq<string>): Result<seq<Score>, EncodeError>
    requires forall k :: k in keys ==> k in scores
  {
    if keys == [] then Ok([])
    else if !Bps(scores[keys[0]]) then Err(BpsOutOfRange(keys[0]))
    else
      var more :- CheckScores(h, scores, keys[1..]);
      Ok([ScoreOf(h, keys[0], scores[keys[0]])] + more)
  }

  ghost function CheckScoreMap(h: Hash, scores: map<string, int>): Result<Option<seq<Score>>, EncodeError> {
    if scores == map[] then Ok(None)
    else if |scores| > MAX_SCORES then Err(TooManyScores)
    else
      var list :- CheckScores(h, scores, SortedKeys(scores));
      Ok(Some(list))
  }

  /** What the backend encodes, or the first check that fails. */
  ghost function OutputReceipt(h: Hash, o: BranchOutput, canonical: Digest): Result<Receipt, EncodeError> {
    if !(0 <= o.branchIndex < U32_LIMIT) then Err(IndexDoesNotFit)
    else
      var scalar :- CheckBps(o.scalar, "scalar_value_bps");
      var lower :- CheckBps(o.lower, "scalar_confidence_lower_bps");
      var upper :- CheckBps(o.upper, "scalar_confidence_upper_bps");
      var category :- CheckCategory(o.category);
      var scores :- CheckScoreMap(h, ScoresOrEmpty(o));
      Ok(Receipt(o.kind, o.branchIndex, scalar, lower, upper, category, scores, canonical))
  }

  lemma {:induction false} CheckScoresOk(h: Hash, scores: map<string, int>, keys: seq<string>)
    requires forall k :: k in keys ==> k in scores
    requires CheckScores(h, scores, keys).Ok?
    ensures |CheckScores(h, scores, keys).value| == |keys|
    ensures forall i :: 0 <= i < |keys| ==> ScoreOk(CheckScores(h, scores, keys).value[i])
  {
    if keys != [] {
      CheckScoresOk(h, scores, keys[1..]);
    }
  }

  lemma ScoreMapOk(h: Hash, scores: map<string, int>)
    requires CheckScoreMap(h, scores).Ok?
    ensures var list := CheckScoreMap(h, scores).value;
            list.Some? ==> 1 <= |list.value| <= MAX_SCORES && forall i :: 0 <= i < |list.value| ==> ScoreOk(list.value[i])
  {
    if scores != map[] {
      CheckScoresOk(h, scores, SortedKeys(scores));
      hide CheckScores;
      assert |scores| != 0;
    }
  }

  lemma OutputReceiptWellFormed(h: Hash, o: BranchOutput, canonical: Digest)
    requires OutputReceipt(h, o, canonical).Ok?
    ensures WellFormed(OutputReceipt(h, o, canonical).value)
  {
    ScoreMapOk(h, ScoresOrEmpty(o));
    hide CheckScoreMap, ScoresOrEmpty, ScoreOk;
  }

  // ----- which outputs are encoded, and as what

  predicate InRange(o: Option<int>, limit: int) {
    o.Some? ==> 0 <= o.value <= limit
  }

  /** The scores, none if the output has none. */
  function ScoreMap(o: BranchOutput): map<string, int> {
    match o.scores
    case Some(scores) => scores
    case None => map[]
  }

  predicate ScoresInRange(scores: map<string, int>) {
    forall key :: key in scores ==> 0 <= scores[key] <= 10_000
  }

  predicate SameNumber(o: Option<int>, n: Option<nat>) {
    match o
    case Some(v) => n.Some? && n.value == v
    case None => n.None?
  }

  /** The score list of a dictionary: its keys in ascending order of code points, each as the first four bytes of
      its hash, with its value. */
  ghost predicate ListsScores(h: Hash, scores: map<string, int>, list: seq<Score>, keys: seq<string>) {
    && |keys| == |list| == |scores| && (forall key :: key in keys <==> key in scores)
    && (forall i, j :: 0 <= i < j < |keys| ==> Utf8.CodePointLeq(keys[i], keys[j]))
    && forall i :: 0 <= i < |list| ==> keys[i] in scores && IsScore(h, list[i], keys[i], scores[keys[i]])
  }

  ghost predicate IsScore(h: Hash, score: Score, key: string, value: int) {
    score.keyHash == h(Utf8.Encode(key))[..4] && score.bps == value
  }

  predicate KeyInRange(scores: map<string, int>, key: string) {
    key in scores && 0 <= scores[key] <= 10_000
  }

  /** The first of the keys whose score is out of range. */
  ghost predicate FirstOut(scores: map<string, int>, keys: seq<string>, e: EncodeError) {
    exists k :: 0 <= k < |keys| && e == BpsOutOfRange(keys[k]) && !KeyInRange(scores, keys[k])
      && forall i :: 0 <= i < k ==> KeyInRange(scores, keys[i])
  }

  /** The scores of the keys, one by one. */
  ghost predicate Lists(h: Hash, scores: map<string, int>, keys: seq<string>, list: seq<Score>) {
    |list| == |keys| && forall i :: 0 <= i < |keys| ==> keys[i] in scores && IsScore(h, list[i], keys[i], scores[keys[i]])
  }

  lemma {:induction false} CheckedScores(h: Hash, scores: map<string, int>, keys: seq<string>)
    requires forall k :: k in keys ==> k in scores
    ensures var r := CheckScores(h, scores, keys);
            && (r.Ok? <==> forall i :: 0 <= i < |keys| ==> KeyInRange(scores, keys[i]))
            && (r.Ok? ==> Lists(h, scores, keys, r.value)) && (r.Err? ==> FirstOut(scores, keys, r.error))
  {
    if keys != [] {
      var rest := keys[1..];
      CheckedScores(h, scores, rest);
      var r, tail := CheckScores(h, scores, keys), CheckScores(h, scores, rest);
      assert r == if !KeyInRange(scores, keys[0]) then Err(BpsOutOfRange(keys[0]))
                  else if tail.Err? then tail else Ok([ScoreOf(h, keys[0], scores[keys[0]])] + tail.value);
      hide CheckScores, KeyInRange;
      if tail.Ok? && r.Ok? {
        ListsOne(h, scores, keys, tail.value);
      } else if tail.Err? && KeyInRange(scores, keys[0]) {
        OutLater(scores, keys, tail.error);
      }
      assert forall i :: 0 < i < |keys| ==> keys[i] == rest[i - 1];
    }
  }

  lemma ListsOne(h: Hash, scores: map<string, int>, keys: seq<string>, tail: seq<Score>)
    requires keys != [] && KeyInRange(scores, keys[0]) && Lists(h, scores, keys[1..], tail)
    ensures Lists(h, scores, keys, [ScoreOf(h, keys[0], scores[keys[0]])] + tail)
  {
    hide Utf8.Encode;
    assert forall i :: 0 < i < |keys| ==> keys[i] == keys[1..][i - 1];
  }

  lemma OutLater(scores: map<string, int>, keys: seq<string>, e: EncodeError)
    requires keys != [] && KeyInRange(scores, keys[0]) && FirstOut(scores, keys[1..], e)
    ensures FirstOut(scores, keys, e)
  {
    hide KeyInRange;
    var rest := keys[1..];
    var k :| 0 <= k < |rest| && e == BpsOutOfRange(rest[k]) && !KeyInRange(scores, rest[k])
             && forall i :: 0 <= i < k ==> KeyInRange(scores, rest[i]);
    assert keys[k + 1] == rest[k];
    assert forall i :: 0 < i < k + 1 ==> keys[i] == rest[i - 1];
  }

  lemma SortedKeysAscend<T>(m: map<string, T>)
    ensures forall i, j :: 0 <= i < j < |SortedKeys(m)| ==> Utf8.CodePointLeq(SortedKeys(m)[i], SortedKeys(m)[j])
  {
    Utf8.CodePointOrderIsTotal();
    SortSorts(SeqOfSet(m.Keys), Utf8.CodePointLeq);
  }

  lemma AllKeysInRange(scores: map<string, int>, keys: seq<string>)
    requires forall key :: key in keys <==> key in scores
    ensures (forall i :: 0 <= i < |keys| ==> KeyInRange(scores, keys[i])) <==> ScoresInRange(scores)
  {
    if forall i :: 0 <= i < |keys| ==> KeyInRange(scores, keys[i]) {
      forall key | key in scores ensures 0 <= scores[key] <= 10_000 {
        assert key in keys;
      }
    }
  }

  lemma KeysVerdict(h: Hash, scores: map<string, int>)
    ensures var r, keys := CheckScores(h, scores, SortedKeys(scores)), SortedKeys(scores);
            && (r.Ok? <==> ScoresInRange(scores)) && (r.Ok? ==> ListsScores(h, scores, r.value, keys))
            && (r.Err? ==> ScoreAtFault(scores, r.error))
  {
    var keys := SortedKeys(scores);
    SortedKeysAscend(scores);
    CheckedScores(h, scores, keys);
    AllKeysInRange(scores, keys);
    hide SortedKeys, CheckScores, Utf8.CodePointLeq, IsScore, KeyInRange, ScoresInRange, FirstOut, ScoreAtFault;
    if CheckScores(h, scores, keys).Err? {
      FirstFault(scores, keys, CheckScores(h, scores, keys).error);
    }
  }

  lemma ScoreMapVerdict(h: Hash, scores: map<string, int>)
    ensures var r := CheckScoreMap(h, scores);
            && (r.Ok? <==> |scores| <= 32 && ScoresInRange(scores))
            && (r.Ok? && scores == map[] ==> r.value == None)
            && (r.Ok? && scores != map[] ==> r.value.Some? && ListsScores(h, scores, r.value.value, SortedKeys(scores)))
            && (|scores| > 32 ==> r == Err(TooManyScores))
            && (|scores| <= 32 && r.Err? ==> ScoreAtFault(scores, r.error))
  {
    KeysVerdict(h, scores);
    assert |scores| == 0 <==> scores == map[];
    hide SortedKeys, CheckScores, ListsScores, ScoreAtFault;
  }

  /** The first score out of range, in the order of the keys. */
  ghost predicate ScoreAtFault(scores: map<string, int>, e: EncodeError) {
    && e.BpsOutOfRange? && e.field in scores && !(0 <= scores[e.field] <= 10_000)
    && forall key :: key in scores && key != e.field && Utf8.CodePointLeq(key, e.field) ==> 0 <= scores[key] <= 10_000
  }

  lemma FirstFault(scores: map<string, int>, keys: seq<string>, e: EncodeError)
    requires forall key :: key in keys <==> key in scores
    requires forall i, j :: 0 <= i < j < |keys| ==> Utf8.CodePointLeq(keys[i], keys[j])
    requires FirstOut(scores, keys, e)
    ensures ScoreAtFault(scores, e)
  {
    Utf8.CodePointOrderIsTotal();
    hide Utf8.CodePointLeq;
    var k :| 0 <= k < |keys| && e == BpsOutOfRange(keys[k]) && !KeyInRange(scores, keys[k])
             && forall i :: 0 <= i < k ==> KeyInRange(scores, keys[i]);
    forall key | key in scores && key != e.field && Utf8.CodePointLeq(key, e.field) ensures 0 <= scores[key] <= 10_000 {
      var i :| 0 <= i < |keys| && keys[i] == key;
      assert i < k;
    }
  }

  /** The first check of the encoder that an output fails, if any. */
  ghost predicate Fails(o: BranchOutput, e: EncodeError) {
    if !(0 <= o.branchIndex < 0x1_0000_0000) then e == IndexDoesNotFit
    else if !InRange(o.scalar, 10_000) then e == BpsOutOfRange("scalar_value_bps")
    else if !InRange(o.lower, 10_000) then e == BpsOutOfRange("scalar_confidence_lower_bps")
    else if !InRange(o.upper, 10_000) then e == BpsOutOfRange("scalar_confidence_upper_bps")
    else if !InRange(o.category, 255) then e == CategoryDoesNotFit
    else if |ScoreMap(o)| > 32 then e == TooManyScores
    else ScoreAtFault(ScoreMap(o), e)
  }

  /** Every output, validated or not: the encoder takes it if and only if each field fits, and then encodes each
      field as it is; otherwise it names the first that does not. */
  lemma OutputEncodes(h: Hash, o: BranchOutput, canonical: Digest)
    ensures var r, scores := OutputReceipt(h, o, canonical), ScoreMap(o);
            && (r.Ok? <==> && 0 <= o.branchIndex < 0x1_0000_0000 && InRange(o.scalar, 10_000) && InRange(o.lower, 10_000)
                           && InRange(o.upper, 10_000) && InRange(o.category, 255) && |scores| <= 32 && ScoresInRange(scores))
            && (r.Ok? ==> && r.value.kind == o.kind && r.value.branchIndex == o.branchIndex && SameNumber(o.scalar, r.value.scalar)
                          && SameNumber(o.lower, r.value.lower) && SameNumber(o.upper, r.value.upper)
                          && SameNumber(o.category, r.value.category) && r.value.canonicalHash == canonical
                          && (if scores == map[] then r.value.scores == None
                              else r.value.scores.Some? && ListsScores(h, scores, r.value.scores.value, SortedKeys(scores))))
            && (r.Err? ==> Fails(o, r.error))
  {
    assert ScoresOrEmpty(o) == ScoreMap(o);
    ScoreMapVerdict(h, ScoreMap(o));
    BpsVerdict(o.scalar, "scalar_value_bps");
    BpsVerdict(o.lower, "scalar_confidence_lower_bps");
    BpsVerdict(o.upper, "scalar_confidence_upper_bps");
    CategoryVerdict(o.category);
    hide CheckBps, CheckCategory, InRange, SameNumber, CheckScoreMap, ScoresOrEmpty, ScoreMap, ListsScores, ScoresInRange, ScoreAtFault, SortedKeys;
  }

  lemma BpsVerdict(o: Option<int>, field: string)
    ensures var r := CheckBps(o, field);
            (r.Ok? <==> InRange(o, 10_000)) && (r.Ok? ==> SameNumber(o, r.value)) && (r.Err? ==> r.error == BpsOutOfRange(field))
  {
  }

  lemma CategoryVerdict(o: Option<int>)
    ensures var r := CheckCategory(o);
            (r.Ok? <==> InRange(o, 255)) && (r.Ok? ==> SameNumber(o, r.value)) && (r.Err? ==> r.error == CategoryDoesNotFit)
  {
  }

  ghost function Encoded<E>(r: Result<Receipt, E>): Result<Bytes, E> {
    match r
    case Ok(w) => Ok(Encode(w))
    case Err(e) => Err(e)
  }

  method PushBps(out: Bytes, o: Option<int>, field: string) returns (r: Result<Bytes, EncodeError>)
    ensures match CheckBps(o, field)
            case Ok(v) => r == Ok(out + BpsBytes(v))
            case Err(e) => r == Err(e)
  {
    if o.None? {
      assert out + [] == out;
      return Ok(out);
    }
    if !Bps(o.value) {
      return Err(BpsOutOfRange(field));
    }
    r := Ok(out + LittleEndian(o.value, 2));
  }

  lemma {:induction false} ScoreListAppend(scores: seq<Score>, s: Score)
    ensures ScoreListBytes(scores + [s]) == ScoreListBytes(scores) + (s.keyHash + LittleEndian(s.bps, 2))
  {
    if scores == [] {
      assert [s][1..] == [] && scores + [s] == [s];
      assert ScoreListBytes([s]) == s.keyHash + LittleEndian(s.bps, 2) + [];
    } else {
      assert (scores + [s])[1..] == scores[1..] + [s];
      ScoreListAppend(scores[1..], s);
    }
  }

  ghost function Continue<E>(done: seq<Score>, r: Result<seq<Score>, E>): Result<seq<Score>, E> {
    match r
    case Ok(rest) => Ok(done + rest)
    case Err(e) => Err(e)
  }

  lemma ContinueNothing<E>(r: Result<seq<Score>, E>)
    ensures Continue([], r) == r
  {
    if r.Ok? {
      assert [] + r.value == r.value;
    }
  }

  lemma ContinueOne<E>(done: seq<Score>, s: Score, r: Result<seq<Score>, E>)
    ensures Continue(done, Continue([s], r)) == Continue(done + [s], r)
  {
    if r.Ok? {
      assert done + ([s] + r.value) == (done + [s]) + r.value;
    }
  }

  /** For each key in order: four bytes of its hash, then the value. */
  method PushScoreList(h: Hash, scores: map<string, int>, keys: seq<string>) returns (r: Result<Bytes, EncodeError>)
    requires forall k :: k in keys ==> k in scores
    ensures match CheckScores(h, scores, keys)
            case Ok(list) => r == Ok(ScoreListBytes(list))
            case Err(e) => r == Err(e)
  {
    var body: Bytes := [];
    ghost var done: seq<Score> := [];
    ContinueNothing(CheckScores(h, scores, keys));
    assert keys[0..] == keys;
    var i := 0;
    while i < |keys|
      invariant 0 <= i <= |keys|
      invariant body == ScoreListBytes(done)
      invariant CheckScores(h, scores, keys) == Continue(done, CheckScores(h, scores, keys[i..]))
    {
      var key := keys[i];
      assert keys[i..][1..] == keys[i + 1..];
      ghost var tail := CheckScores(h, scores, keys[i + 1..]);
      assert CheckScores(h, scores, keys[i..])
          == if !Bps(scores[key]) then Err(BpsOutOfRange(key)) else Continue([ScoreOf(h, key, scores[key])], tail);
      if !Bps(scores[key]) {
        return Err(BpsOutOfRange(key));
      }
      ContinueOne(done, ScoreOf(h, key, scores[key]), tail);
      ScoreListAppend(done, ScoreOf(h, key, scores[key]));
      body := body + (h(Utf8.Encode(key))[..4] + LittleEndian(scores[key], 2));
      done := done + [ScoreOf(h, key, scores[key])];
      i := i + 1;
    }
    assert done + [] == done;
    r := Ok(body);
  }

  /** The score section: a count byte, then the list. */
  method PushScores(h: Hash, out: Bytes, scores: map<string, int>) returns (r: Result<Bytes, EncodeError>)
    ensures match CheckScoreMap(h, scores)
            case Ok(list) => r == Ok(out + ScoresBytes(list))
            case Err(e) => r == Err(e)
  {
    if scores == map[] {
      assert out + [] == out;
      return Ok(out);
    }
    if |scores| > MAX_SCORES {
      return Err(TooManyScores);
    }
    var keys := ListKeys(scores);
    var list := PushScoreList(h, scores, keys);
    if list.Err? {
      return Err(list.error);
    }
    CheckScoresOk(h, scores, keys);
    r := Ok(out + ([|scores| % 256] + list.value));
  }

  lemma EncodeRegrouped(w: Receipt)
    ensures Encode(w) == HeaderBytes(w) + BpsBytes(w.scalar) + BpsBytes(w.lower) + BpsBytes(w.upper)
                       + CategoryBytes(w.category) + ScoresBytes(w.scores) + w.canonicalHash
  {
    hide HeaderBytes, BpsBytes, CategoryBytes, ScoresBytes;
  }

  function FlagByte(o: BranchOutput): byte {
    (if o.scalar.Some? then 1 else 0) + (if o.lower.Some? then 2 else 0) + (if o.upper.Some? then 4 else 0)
    + (if o.category.Some? then 8 else 0) + (if ScoresOrEmpty(o) != map[] then 16 else 0)
  }

  /** The flag byte names exactly the optional fields the output has. */
  lemma OutputFlags(h: Hash, o: BranchOutput, canonical: Digest)
    requires OutputReceipt(h, o, canonical).Ok?
    ensures Flags(OutputReceipt(h, o, canonical).value) == FlagByte(o)
  {
    hide CheckScores, ScoresOrEmpty;
  }

  method PushScalars(header: Bytes, o: BranchOutput) returns (r: Result<Bytes, EncodeError>)
    ensures match CheckBps(o.scalar, "scalar_value_bps")
            case Err(e) => r == Err(e)
            case Ok(scalar) =>
              match CheckBps(o.lower, "scalar_confidence_lower_bps")
              case Err(e) => r == Err(e)
              case Ok(lower) =>
                match CheckBps(o.upper, "scalar_confidence_upper_bps")
                case Err(e) => r == Err(e)
                case Ok(upper) => r == Ok(header + BpsBytes(scalar) + BpsBytes(lower) + BpsBytes(upper))
    ensures r.Ok? ==> |r.value| <= |header| + 6
  {
    hide CheckBps, LittleEndian;
    r := PushBps(header, o.scalar, "scalar_value_bps");
    if r.Err? {
      return;
    }
    r := PushBps(r.value, o.lower, "scalar_confidence_lower_bps");
    if r.Err? {
      return;
    }
    r := PushBps(r.value, o.upper, "scalar_confidence_upper_bps");
  }

  /** `branch_output_result_bytes`. */
  method BranchOutputResultBytes(h: Hash, o: BranchOutput, canonical: Digest) returns (r: Result<Bytes, EncodeError>)
    ensures r == Encoded(OutputReceipt(h, o, canonical))
  {
    var flags := 0;
    if o.scalar.Some? { flags := flags + 1; }
    if o.lower.Some? { flags := flags + 2; }
    if o.upper.Some? { flags := flags + 4; }
    if o.category.Some? { flags := flags + 8; }
    if ScoresOrEmpty(o) != map[] { flags := flags + 16; }
    if !(0 <= o.branchIndex < U32_LIMIT) {
      return Err(IndexDoesNotFit);
    }
    assert flags == FlagByte(o);
    if OutputReceipt(h, o, canonical).Ok? {
      OutputFlags(h, o, canonical);
      EncodeRegrouped(OutputReceipt(h, o, canonical).value);
    }
    hide BpsBytes, CheckBps, ScoresBytes, CheckScoreMap, LittleEndian, Flags, CategoryBytes, CheckCategory, ScoresOrEmpty, Encode, FlagByte;
    var header := Magic() + [2, KindId(o.kind)] + LittleEndian(o.branchIndex, 4) + [flags];
    var scalars := PushScalars(header, o);
    if scalars.Err? {
      return Err(scalars.error);
    }
    r := PushLabelScoresAndHash(h, scalars.value, o, canonical);
  }

  method PushLabelScoresAndHash(h: Hash, start: Bytes, o: BranchOutput, canonical: Digest) returns (r: Result<Bytes, EncodeError>)
    requires |start| <= 17
    ensures match CheckCategory(o.category)
            case Err(e) => r == Err(e)
            case Ok(category) =>
              match CheckScoreMap(h, ScoresOrEmpty(o))
              case Err(e) => r == Err(e)
              case Ok(scores) => r == Ok(start + CategoryBytes(category) + ScoresBytes(scores) + canonical)
  {
    hide ScoresBytes, CheckScoreMap;
    var out := start;
    if o.category.Some? {
      if !(0 <= o.category.value < 256) {
        return Err(CategoryDoesNotFit);
      }
      out := out + [o.category.value];
    } else {
      assert out + [] == out;
    }
    var done := PushScores(h, out, ScoresOrEmpty(o));
    if done.Err? {
      return Err(done.error);
    }
    out := done.value + canonical;
    ScoreSectionLength(h, ScoresOrEmpty(o));
    if |out| > MAX_RESULT_BYTES {
      return Err(ResultTooLong);
    }
    r := Ok(out);
  }

  lemma ScoreSectionLength(h: Hash, scores: map<string, int>)
    requires CheckScoreMap(h, scores).Ok?
    ensures |ScoresBytes(CheckScoreMap(h, scores).value)| <= 193
  {
    if scores != map[] {
      CheckScoresOk(h, scores, SortedKeys(scores));
      ScoreListLength(CheckScoreMap(h, scores).value.value);
    }
  }
}

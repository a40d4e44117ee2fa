/** What an artifact must say to be reduced, and what its reduction then is, in terms of the document alone. */
module ReductionMeaning {
  import opened Results
  import opened ByteStrings
  import opened Json
  import opened Sorting
  import opened Combiners
  import opened Trimming
  import opened CombinerParams
  import opened Merkle
  import opened Mfb2Parsers
  import opened Reduction
  import opened ReductionFacts
  import opened GuestAgreement
  import Mfb2
  import Hex

  // ----- what a document says

  /** A parameter that is absent or null is 0. */
  function ParameterAt(v: Json, field: string): Option<nat> {
    match v.Get("combiner_parameters")
    case Some(Obj(fields)) => if field !in fields || fields[field] == Null then Some(0) else NumberAt(Obj(fields), field)
    case _ => None
  }

  function ItemsAt(v: Json): Option<seq<Json>> {
    match v.Get("branches")
    case Some(Arr(items)) => Some(items)
    case _ => None
  }

  function BytesAt(v: Json, field: string): Option<Bytes> {
    match TextAt(v, field)
    case Some(text) => Hex.HexBytes(text)
    case None => None
  }

  // ----- what is reduced

  /** One of the three combiners, by its number and its name. */
  predicate Names(id: nat, name: string) {
    (id == 1 && name == "weighted-mean") || (id == 2 && name == "trimmed-mean") || (id == 3 && name == "majority-vote")
  }

  /** The receipt an element of `branches` carries. */
  function ReceiptAt(h: Hash, item: Json): Option<Mfb2.BranchResult> {
    match BytesAt(item, "result_bytes")
    case None => None
    case Some(bytes) =>
      match StrictParse(h, bytes)
      case Ok(receipt) => Some(receipt)
      case Err(_) => None
  }

  /** An element of `branches` that carries a receipt its combiner can use, and says so truly. */
  predicate SoundBranch(h: Hash, id: nat, dictionarySize: nat, item: Json) {
    && item.Obj? && ReceiptAt(h, item).Some?
    && var receipt := ReceiptAt(h, item).value;
    && NumberAt(item, "branch_index") == Some(receipt.branchIndex)
    && BytesAt(item, "result_hash") == Some(h(BytesAt(item, "result_bytes").value))
    && NumberAt(item, "weight").Some? && NumberAt(item, "weight").value >= 1
    && (id == 2 ==> NumberAt(item, "weight").value == 1)
    && (if id == 3 then receipt.category.Some? && receipt.category.value < dictionarySize
        else receipt.kind != Mfb2.Categorical && receipt.scalar.Some?)
  }

  ghost predicate IndexBelow(a: Json, b: Json) {
    match (NumberAt(a, "branch_index"), NumberAt(b, "branch_index"))
    case (Some(m), Some(n)) => m < n
    case _ => false
  }

  ghost predicate SoundHead(v: Json, id: nat, trimBps: nat, dictionarySize: nat, items: seq<Json>) {
    && TextAt(v, "schema") == Some("MFA3") && NumberAt(v, "schema_version") == Some(3)
    && NumberAt(v, "combiner_id") == Some(id) && TextAt(v, "combiner").Some? && Names(id, TextAt(v, "combiner").value)
    && ParameterAt(v, "trim_bps") == Some(trimBps) && ParameterAt(v, "category_dictionary_size") == Some(dictionarySize)
    && ItemsAt(v) == Some(items) && 1 <= |items| <= 128
  }

  ghost predicate SoundBranches(h: Hash, id: nat, dictionarySize: nat, items: seq<Json>) {
    && (forall i :: 0 <= i < |items| ==> SoundBranch(h, id, dictionarySize, items[i]))
    && forall i, j :: 0 <= i < j < |items| ==> IndexBelow(items[i], items[j])
  }

  // ----- the numbers that are combined

  predicate SaysScalar(h: Hash, item: Json, s: Weighted) {
    && ReceiptAt(h, item).Some? && ReceiptAt(h, item).value.scalar == Some(s.value)
    && NumberAt(item, "weight") == Some(s.weight)
  }

  predicate SaysVote(h: Hash, item: Json, vote: Vote) {
    && ReceiptAt(h, item).Some? && ReceiptAt(h, item).value.category == Some(vote.category)
    && NumberAt(item, "weight") == Some(vote.weight)
  }

  ghost predicate AllScalars(h: Hash, items: seq<Json>, scalars: seq<Weighted>) {
    |scalars| == |items| && forall i :: 0 <= i < |items| ==> SaysScalar(h, items[i], scalars[i])
  }

  ghost predicate AllVotes(h: Hash, items: seq<Json>, votes: seq<Vote>) {
    |votes| == |items| && forall i :: 0 <= i < |items| ==> SaysVote(h, items[i], votes[i])
  }

  /** `kept` is what is left of the values after rejecting `count`: those that stay are in their order, and sorted
      they are what peeling the farther end off the sorted values leaves, the distance taken from the value in
      the middle. */
  ghost predicate Kept(values: seq<int>, count: nat, kept: seq<int>) {
    && count < |values| && Subsequence(kept, values)
    && var sorted := Sort(values, IntLeq);
       Sort(kept, IntLeq) == Block(sorted, sorted[|values| / 2], count)
  }

  /** The result that the combiner with this number gives for the branches. */
  ghost predicate ResultOf(h: Hash, id: nat, trimBps: nat, items: seq<Json>, result: nat) {
    match id
    case 1 => exists scalars :: AllScalars(h, items, scalars)
                && NearestTiesUp(WeightedSum(scalars), TotalWeight(scalars), result)
    case 2 => exists scalars, kept :: AllScalars(h, items, scalars)
                && Kept(ValuesOf(scalars), |items| * trimBps / 10_000, kept)
                && NearestTiesUp(Sum(kept), |kept|, result)
    case 3 => exists votes :: AllVotes(h, items, votes) && IsPlurality(votes, result)
    case _ => false
  }

  ghost predicate HashesOf(h: Hash, items: seq<Json>, hashes: seq<Digest>) {
    |hashes| == |items| && forall i :: 0 <= i < |items| ==>
      BytesAt(items[i], "result_bytes").Some? && hashes[i] == h(BytesAt(items[i], "result_bytes").value)
  }

  ghost predicate RootOf(h: Hash, hashes: seq<Digest>, root: Digest) {
    exists leaves :: leaves != [] && AscendingOf(leaves, hashes) && root == TreeHash(h, leaves)
  }

  /** The reduction of an artifact with this head. */
  ghost predicate ReductionOf(h: Hash, id: nat, trimBps: nat, dictionarySize: nat, items: seq<Json>, r: AggregateReduction) {
    && r.combinerId == id && r.trimBps == trimBps && r.dictionarySize == dictionarySize && r.branchCount == |items|
    && r.paramsDigest == h(ParamsLine(id, trimBps, dictionarySize))
    && HashesOf(h, items, r.branchHashes) && RootOf(h, r.branchHashes, r.merkleRoot)
    && ResultOf(h, id, trimBps, items, r.resultValue)
  }

  // ----- the readers

  lemma TextRead(v: Json, field: string)
    ensures StringField(Unbounded, v, field).Ok? <==> TextAt(v, field).Some?
    ensures TextAt(v, field).Some? ==> StringField(Unbounded, v, field).value == TextAt(v, field).value
  {
  }

  lemma NumberRead(v: Json, field: string)
    ensures UnsignedField(Unbounded, v, field).Ok? <==> NumberAt(v, field).Some?
    ensures NumberAt(v, field).Some? ==> UnsignedField(Unbounded, v, field).value == NumberAt(v, field).value
  {
  }

  lemma BytesRead(v: Json, field: string)
    ensures HexField(Unbounded, v, field).Ok? <==> BytesAt(v, field).Some?
    ensures BytesAt(v, field).Some? ==> HexField(Unbounded, v, field).value == BytesAt(v, field).value
  {
    TextRead(v, field);
    hide TextAt, StringField, Hex.HexBytes;
  }

  lemma ParameterRead(v: Json, field: string, fields: map<string, Json>)
    requires v.Get("combiner_parameters") == Some(Obj(fields))
    ensures Parameter(Unbounded, Obj(fields), field).Ok? <==> ParameterAt(v, field).Some?
    ensures ParameterAt(v, field).Some? ==> Parameter(Unbounded, Obj(fields), field).value == ParameterAt(v, field).value
  {
    NumberRead(Obj(fields), field);
    hide NumberAt, UnsignedField;
  }

  // ----- the head

  lemma ParametersMean(v: Json, id: nat)
    ensures ReadParameters(Unbounded, v, id).Ok?
       <==> && ParameterAt(v, "trim_bps").Some? && ParameterAt(v, "category_dictionary_size").Some?
            && ItemsAt(v).Some? && 1 <= |ItemsAt(v).value| <= 128
    ensures ReadParameters(Unbounded, v, id).Ok? ==>
              ReadParameters(Unbounded, v, id).value
              == Header(id, ParameterAt(v, "trim_bps").value, ParameterAt(v, "category_dictionary_size").value, ItemsAt(v).value)
  {
    match v.Get("combiner_parameters")
    case Some(Obj(fields)) =>
      ParameterRead(v, "trim_bps", fields);
      ParameterRead(v, "category_dictionary_size", fields);
    case _ =>
    hide Parameter, NumberAt;
  }

  lemma NamesMean(id: nat, name: string)
    ensures CombinerName(id) == Some(name) <==> Names(id, name)
  {
  }

  lemma HeadMeans(v: Json, id: nat, trimBps: nat, dictionarySize: nat, items: seq<Json>)
    ensures ReadHeader(Unbounded, v) == Ok(Header(id, trimBps, dictionarySize, items)) <==> SoundHead(v, id, trimBps, dictionarySize, items)
  {
    TextRead(v, "schema");
    TextRead(v, "combiner");
    NumberRead(v, "schema_version");
    NumberRead(v, "combiner_id");
    ParametersMean(v, id);
    forall name: string ensures CombinerName(id) == Some(name) <==> Names(id, name) {
      NamesMean(id, name);
    }
    if ReadHeader(Unbounded, v).Ok? {
      ParametersMean(v, UnsignedField(Unbounded, v, "combiner_id").value);
    }
    hide StringField, UnsignedField, ReadParameters, CombinerName, Names, ParameterAt, ItemsAt, NumberAt, TextAt;
  }

  // ----- the branches

  predicate After(previous: Option<nat>, item: Json) {
    previous.Some? ==> NumberAt(item, "branch_index").Some? && previous.value < NumberAt(item, "branch_index").value
  }

  /** What adding a sound branch to `c` gives. */
  ghost predicate Adds(h: Hash, id: nat, c: Collected, item: Json, next: Collected) {
    && BytesAt(item, "result_bytes").Some? && next.receipts == c.receipts + [BytesAt(item, "result_bytes").value]
    && next.previous == NumberAt(item, "branch_index") && next.previous.Some?
    && (if id == 3 then next.scalars == c.scalars && |next.votes| == |c.votes| + 1 && next.votes[..|c.votes|] == c.votes
                        && SaysVote(h, item, next.votes[|c.votes|])
        else next.votes == c.votes && |next.scalars| == |c.scalars| + 1 && next.scalars[..|c.scalars|] == c.scalars
             && SaysScalar(h, item, next.scalars[|c.scalars|]))
  }

  lemma BranchIsSound(h: Hash, header: Header, c: Collected, item: Json)
    requires 1 <= header.combinerId <= 3 && AddBranch(h, Unbounded, header, c, item).Ok?
    ensures SoundBranch(h, header.combinerId, header.dictionarySize, item) && After(c.previous, item)
    ensures Adds(h, header.combinerId, c, item, AddBranch(h, Unbounded, header, c, item).value)
  {
    var declared, receiptBytes, receipt, weight := AddBranchParts(h, Unbounded, header, c, item);
    NumberRead(item, "branch_index");
    NumberRead(item, "weight");
    BytesRead(item, "result_bytes");
    BytesRead(item, "result_hash");
    ParsedReceiptInRange(h, receiptBytes);
    hide StrictParse, NumberAt, BytesAt, AddBranch;
  }

  lemma SoundBranchAdds(h: Hash, header: Header, c: Collected, item: Json)
    requires 1 <= header.combinerId <= 3
    requires SoundBranch(h, header.combinerId, header.dictionarySize, item) && After(c.previous, item)
    ensures AddBranch(h, Unbounded, header, c, item).Ok?
  {
    var bytes := BytesAt(item, "result_bytes").value;
    NumberRead(item, "branch_index");
    NumberRead(item, "weight");
    BytesRead(item, "result_bytes");
    BytesRead(item, "result_hash");
    ParsedReceiptInRange(h, bytes);
    hide StrictParse, NumberAt, BytesAt, HexField, UnsignedField, AddBranch;
    var receipt := StrictParse(h, bytes).value;
    AddBranchFrom(h, Unbounded, header, c, item, receipt.branchIndex, bytes, receipt, NumberAt(item, "weight").value);
  }

  /** What adding sound branches to `c` gives. */
  ghost predicate AddsAll(h: Hash, id: nat, c: Collected, items: seq<Json>, end: Collected) {
    && |end.receipts| == |c.receipts| + |items| && end.receipts[..|c.receipts|] == c.receipts
    && (forall i :: 0 <= i < |items| ==> BytesAt(items[i], "result_bytes") == Some(end.receipts[|c.receipts| + i]))
    && (if id == 3 then |end.votes| == |c.votes| + |items| && end.votes[..|c.votes|] == c.votes && AllVotes(h, items, end.votes[|c.votes|..])
        else |end.scalars| == |c.scalars| + |items| && end.scalars[..|c.scalars|] == c.scalars && AllScalars(h, items, end.scalars[|c.scalars|..]))
  }

  lemma AddsOneThenAll(h: Hash, id: nat, c: Collected, next: Collected, items: seq<Json>, end: Collected)
    requires items != [] && Adds(h, id, c, items[0], next) && AddsAll(h, id, next, items[1..], end)
    ensures AddsAll(h, id, c, items, end)
  {
    hide BytesAt, SaysVote, SaysScalar;
    var rest := items[1..];
    assert forall i :: 0 < i < |items| ==> items[i] == rest[i - 1];
    assert end.receipts[..|c.receipts|] == end.receipts[..|next.receipts|][..|c.receipts|];
    assert end.receipts[|c.receipts|] == end.receipts[..|next.receipts|][|c.receipts|];
    if id == 3 {
      assert end.votes[|c.votes|] == end.votes[..|next.votes|][|c.votes|];
      assert end.votes[..|c.votes|] == end.votes[..|next.votes|][..|c.votes|];
      assert end.votes[|c.votes|..] == [end.votes[|c.votes|]] + end.votes[|next.votes|..];
    } else {
      assert end.scalars[|c.scalars|] == end.scalars[..|next.scalars|][|c.scalars|];
      assert end.scalars[..|c.scalars|] == end.scalars[..|next.scalars|][..|c.scalars|];
      assert end.scalars[|c.scalars|..] == [end.scalars[|c.scalars|]] + end.scalars[|next.scalars|..];
    }
  }

  lemma SoundBranchesTail(h: Hash, id: nat, dictionarySize: nat, items: seq<Json>)
    requires items != []
    ensures SoundBranches(h, id, dictionarySize, items)
       <==> && SoundBranch(h, id, dictionarySize, items[0]) && SoundBranches(h, id, dictionarySize, items[1..])
            && (|items| > 1 ==> IndexBelow(items[0], items[1]))
  {
    hide SoundBranch;
    var rest := items[1..];
    assert forall i :: 0 < i < |items| ==> items[i] == rest[i - 1];
    if SoundBranch(h, id, dictionarySize, items[0]) && SoundBranches(h, id, dictionarySize, rest) && (|items| > 1 ==> IndexBelow(items[0], items[1])) {
      forall i, j | 0 <= i < j < |items| ensures IndexBelow(items[i], items[j]) {
        if i > 0 {
          assert IndexBelow(rest[i - 1], rest[j - 1]);
        } else if j > 1 {
          assert IndexBelow(rest[0], rest[j - 1]);
        }
      }
    }
  }

  lemma {:induction false} BranchesMean(h: Hash, header: Header, c: Collected, items: seq<Json>)
    requires 1 <= header.combinerId <= 3
    ensures var end := AddBranches(h, Unbounded, header, c, items);
            && (end.Ok? <==> SoundBranches(h, header.combinerId, header.dictionarySize, items) && (items != [] ==> After(c.previous, items[0])))
            && (end.Ok? ==> AddsAll(h, header.combinerId, c, items, end.value))
    decreases |items|
  {
    if items == [] {
      NothingAdded(h, header.combinerId, c);
    } else {
      SoundBranchesTail(h, header.combinerId, header.dictionarySize, items);
      var next := AddBranch(h, Unbounded, header, c, items[0]);
      if SoundBranch(h, header.combinerId, header.dictionarySize, items[0]) && After(c.previous, items[0]) {
        SoundBranchAdds(h, header, c, items[0]);
      }
      if next.Ok? {
        BranchIsSound(h, header, c, items[0]);
        NextIsAfter(h, header.combinerId, c, items, next.value);
        hide SoundBranch, SoundBranches, Adds, AddsAll, AddBranch, IndexBelow, After;
        BranchesMean(h, header, next.value, items[1..]);
        if AddBranches(h, Unbounded, header, c, items).Ok? {
          AddsOneThenAll(h, header.combinerId, c, next.value, items, AddBranches(h, Unbounded, header, c, items).value);
        }
      }
    }
  }

  lemma NothingAdded(h: Hash, id: nat, c: Collected)
    ensures AddsAll(h, id, c, [], c)
  {
    assert c.receipts[..|c.receipts|] == c.receipts && c.votes[..|c.votes|] == c.votes && c.scalars[..|c.scalars|] == c.scalars;
  }

  lemma NextIsAfter(h: Hash, id: nat, c: Collected, items: seq<Json>, next: Collected)
    requires items != [] && Adds(h, id, c, items[0], next)
    ensures |items| > 1 ==> (After(next.previous, items[1]) <==> IndexBelow(items[0], items[1]))
    ensures |items| > 1 ==> items[1..][0] == items[1]
  {
    hide NumberAt;
  }

  // ----- the combiners

  lemma ScalarsAreUnique(h: Hash, items: seq<Json>, a: seq<Weighted>, b: seq<Weighted>)
    requires AllScalars(h, items, a) && AllScalars(h, items, b)
    ensures a == b
  {
    hide ReceiptAt, NumberAt;
  }

  lemma VotesAreUnique(h: Hash, items: seq<Json>, a: seq<Vote>, b: seq<Vote>)
    requires AllVotes(h, items, a) && AllVotes(h, items, b)
    ensures a == b
  {
    hide ReceiptAt, NumberAt;
  }

  /** Scalars in range, each with a weight. */
  predicate Usable(scalars: seq<Weighted>) {
    scalars != [] && forall i :: 0 <= i < |scalars| ==> InBps(scalars[i].value) && scalars[i].weight > 0
  }

  lemma WeightedMeanMeans(scalars: seq<Weighted>, result: nat)
    requires Usable(scalars)
    ensures WeightedMean(scalars) == Ok(result) <==> NearestTiesUp(WeightedSum(scalars), TotalWeight(scalars), result)
  {
    assert AllInBps(ValuesOf(scalars));
    PositiveWeights(scalars);
    WeightedMeanIsMeanOfRepeated(scalars, 0, BPS_SCALE);
    if NearestTiesUp(WeightedSum(scalars), TotalWeight(scalars), result) {
      NearestTiesUpUnique(WeightedSum(scalars), TotalWeight(scalars), result, WeightedMean(scalars).value);
    }
    hide NearestTiesUp;
  }

  lemma KeptIsRetained(values: seq<int>, count: nat)
    requires count < |values|
    ensures Retained(values, count).Ok? && Kept(values, count, Retained(values, count).value)
  {
    hide Sort, Block, Retained, Median, Subsequence;
    RetainedIsBlock(values, count);
    RetainedKeepsOrder(values, count);
    MedianIsMiddle(values);
  }

  lemma KeptSums(values: seq<int>, count: nat, a: seq<int>, b: seq<int>)
    requires Kept(values, count, a) && Kept(values, count, b)
    ensures Sum(a) == Sum(b) && |a| == |b| > 0
  {
    hide Block, Subsequence;
    assert multiset(a) == multiset(Sort(a, IntLeq)) == multiset(Sort(b, IntLeq)) == multiset(b);
    assert |Sort(a, IntLeq)| == |values| - count;
    hide Sort;
    SumOfPermutation(a, b);
  }

  lemma TrimmedMeanMeans(values: seq<int>, count: nat, result: nat)
    requires count < |values| && AllInBps(values)
    ensures TrimmedMean(values, count) == Ok(result)
       <==> exists kept :: Kept(values, count, kept) && NearestTiesUp(Sum(kept), |kept|, result)
  {
    assert BoundedBy(values, 0, BPS_SCALE);
    KeptIsRetained(values, count);
    TrimmedMeanInRange(values, count, 0, BPS_SCALE);
    hide Kept, NearestTiesUp, TrimmedMean, Retained;
    var own := Retained(values, count).value;
    if kept :| Kept(values, count, kept) && NearestTiesUp(Sum(kept), |kept|, result) {
      KeptSums(values, count, kept, own);
      NearestTiesUpUnique(Sum(own), |own|, result, TrimmedMean(values, count).value);
    }
  }

  lemma CountBelow(n: nat, trimBps: nat)
    requires n > 0
    ensures n * trimBps / 10_000 < n <==> trimBps < 10_000
  {
    if trimBps < 10_000 {
      PartBelowWhole(n, trimBps, 10_000);
    } else {
      MulMonotone(10_000, trimBps, n);
      assert trimBps * n == n * trimBps;
    }
  }

  lemma TrimmedCombineMeans(header: Header, c: Collected, result: nat)
    requires header.combinerId == 2 && Usable(c.scalars)
    ensures Combine(header, c) == Ok(result)
       <==> exists kept :: Kept(ValuesOf(c.scalars), |c.scalars| * header.trimBps / 10_000, kept) && NearestTiesUp(Sum(kept), |kept|, result)
  {
    var count, values := |c.scalars| * header.trimBps / 10_000, ValuesOf(c.scalars);
    CountBelow(|c.scalars|, header.trimBps);
    assert AllInBps(values);
    if header.trimBps < 10_000 {
      TrimmedMeanMeans(values, count, result);
    }
    hide TrimmedMean, NearestTiesUp;
  }

  lemma CombineMeans(h: Hash, header: Header, c: Collected, items: seq<Json>, result: nat)
    requires 1 <= header.combinerId <= 3 && items != []
    requires if header.combinerId == 3 then AllVotes(h, items, c.votes) else AllScalars(h, items, c.scalars) && Usable(c.scalars)
    ensures Combine(header, c) == Ok(result) <==> ResultOf(h, header.combinerId, header.trimBps, items, result)
  {
    hide SaysScalar, SaysVote, NearestTiesUp, Kept, TrimmedMean, WeightedMean, MajorityResult, IsPlurality, TrimCount;
    if header.combinerId == 3 {
      forall votes | AllVotes(h, items, votes) ensures votes == c.votes {
        VotesAreUnique(h, items, votes, c.votes);
      }
      MajorityResultIsPlurality(c.votes);
    } else {
      forall scalars | AllScalars(h, items, scalars) ensures scalars == c.scalars {
        ScalarsAreUnique(h, items, scalars, c.scalars);
      }
      if header.combinerId == 1 {
        WeightedMeanMeans(c.scalars, result);
      } else {
        hide Combine;
        TrimmedCombineMeans(header, c, result);
        hide AllScalars, ValuesOf, Sum;
      }
    }
  }

  // ----- the whole

  lemma FinishMeans(h: Hash, header: Header, c: Collected, items: seq<Json>, r: AggregateReduction)
    requires 1 <= header.combinerId <= 3 && items != [] && AddsAll(h, header.combinerId, NothingCollected(), items, c)
    requires header.combinerId != 3 ==> Usable(c.scalars)
    ensures Finish(h, header, c) == Ok(r) <==> ReductionOf(h, header.combinerId, header.trimBps, header.dictionarySize, items, r)
  {
    var hashes := HashAll(h, c.receipts);
    CollectedAll(h, header.combinerId, items, c);
    HashesAreUnique(h, items, c.receipts, r.branchHashes);
    RootIsUnique(h, hashes, r.merkleRoot);
    CombineMeans(h, header, c, items, r.resultValue);
    FinishIs(h, header, c, r);
    hide Finish, Combine, ResultOf, HashesOf, RootOf, AddsAll, ParamsLine, SortedRoot, Usable, HashAll, Finished, ReductionOf;
    FieldByField(h, header, c, items, r);
  }

  lemma FieldByField(h: Hash, header: Header, c: Collected, items: seq<Json>, r: AggregateReduction)
    requires |c.receipts| == |items| && items != []
    requires Combine(header, c) == Ok(r.resultValue) <==> ResultOf(h, header.combinerId, header.trimBps, items, r.resultValue)
    requires HashesOf(h, items, r.branchHashes) <==> r.branchHashes == HashAll(h, c.receipts)
    requires RootOf(h, HashAll(h, c.receipts), r.merkleRoot) <==> r.merkleRoot == SortedRoot(h, HashAll(h, c.receipts))
    ensures Finished(h, header, c, r) <==> ReductionOf(h, header.combinerId, header.trimBps, header.dictionarySize, items, r)
  {
    hide Combine, ResultOf, HashesOf, RootOf, ParamsLine, SortedRoot;
  }

  /** A reduction, field by field. */
  lemma FinishIs(h: Hash, header: Header, c: Collected, r: AggregateReduction)
    requires c.receipts != []
    ensures Finish(h, header, c) == Ok(r) <==> Finished(h, header, c, r)
  {
    hide Combine, ParamsLine, SortedRoot;
  }

  lemma CollectedAll(h: Hash, id: nat, items: seq<Json>, c: Collected)
    requires AddsAll(h, id, NothingCollected(), items, c)
    ensures |c.receipts| == |items| && forall i :: 0 <= i < |items| ==> BytesAt(items[i], "result_bytes") == Some(c.receipts[i])
    ensures if id == 3 then AllVotes(h, items, c.votes) else AllScalars(h, items, c.scalars)
  {
    hide BytesAt, AllVotes, AllScalars;
    assert c.votes[0..] == c.votes && c.scalars[0..] == c.scalars;
  }

  lemma HashesAreUnique(h: Hash, items: seq<Json>, receipts: seq<Bytes>, hashes: seq<Digest>)
    requires |receipts| == |items| && forall i :: 0 <= i < |items| ==> BytesAt(items[i], "result_bytes") == Some(receipts[i])
    ensures HashesOf(h, items, hashes) <==> hashes == HashAll(h, receipts)
  {
    hide BytesAt;
  }

  lemma RootIsUnique(h: Hash, hashes: seq<Digest>, root: Digest)
    requires hashes != []
    ensures RootOf(h, hashes, root) <==> root == SortedRoot(h, hashes)
  {
    hide AscendingOf, TreeHash;
    SortedLeavesAscend(hashes);
    RootOfAscending(h, hashes, SortedLeaves(hashes));
    forall leaves | leaves != [] && AscendingOf(leaves, hashes) ensures SortedRoot(h, hashes) == TreeHash(h, leaves) {
      RootOfAscending(h, hashes, leaves);
    }
  }

  lemma SoundScalars(h: Hash, id: nat, dictionarySize: nat, items: seq<Json>, scalars: seq<Weighted>)
    requires SoundBranches(h, id, dictionarySize, items) && items != [] && AllScalars(h, items, scalars)
    ensures Usable(scalars)
  {
    forall i | 0 <= i < |scalars| ensures InBps(scalars[i].value) && scalars[i].weight > 0 {
      assert SoundBranch(h, id, dictionarySize, items[i]) && SaysScalar(h, items[i], scalars[i]);
      ParsedReceiptInRange(h, BytesAt(items[i], "result_bytes").value);
    }
  }

  /** The document, its head and its branches, and what they reduce to. */
  ghost predicate ReducesTo(h: Hash, v: Json, r: AggregateReduction) {
    exists items ::
      && SoundHead(v, r.combinerId, r.trimBps, r.dictionarySize, items)
      && SoundBranches(h, r.combinerId, r.dictionarySize, items)
      && ReductionOf(h, r.combinerId, r.trimBps, r.dictionarySize, items, r)
  }

  lemma ReduceWithHead(h: Hash, v: Json, header: Header, r: AggregateReduction)
    requires ReadHeader(Unbounded, v) == Ok(header) && 1 <= header.combinerId <= 3 && header.branches != []
    ensures Reduce(h, Unbounded, v) == Ok(r)
       <==> && SoundBranches(h, header.combinerId, header.dictionarySize, header.branches)
            && ReductionOf(h, header.combinerId, header.trimBps, header.dictionarySize, header.branches, r)
  {
    hide ReadHeader, SoundBranches, ReductionOf, AddsAll, Finish, AddBranches, SoundBranch, AllScalars, Usable;
    BranchesMean(h, header, NothingCollected(), header.branches);
    var c := AddBranches(h, Unbounded, header, NothingCollected(), header.branches);
    if c.Ok? {
      CollectedAll(h, header.combinerId, header.branches, c.value);
      if header.combinerId != 3 {
        SoundScalars(h, header.combinerId, header.dictionarySize, header.branches, c.value.scalars);
      }
      FinishMeans(h, header, c.value, header.branches, r);
    }
  }

  lemma SoundHeadIds(v: Json, id: nat, trimBps: nat, dictionarySize: nat, items: seq<Json>)
    requires SoundHead(v, id, trimBps, dictionarySize, items)
    ensures 1 <= id <= 3 && items != []
  {
  }

  /** An artifact reduces to `r` if and only if its head and its branches are sound and `r` is what they say:
      the plain result of the named combiner over the values and weights that the carried receipts and the
      document give, and the tree over the hashes of those receipts. */
  lemma ReduceExactly(h: Hash, v: Json, r: AggregateReduction)
    ensures Reduce(h, Unbounded, v) == Ok(r) <==> ReducesTo(h, v, r)
  {
    hide SoundHead, SoundBranches, ReductionOf, Reduce, ReadHeader, CombinerName, AddBranches, Gathered, Combine, Finish;
    if Reduce(h, Unbounded, v) == Ok(r) {
      var header, c, value := AcceptedParts(h, Unbounded, v);
      HeadMeans(v, header.combinerId, header.trimBps, header.dictionarySize, header.branches);
      SoundHeadIds(v, header.combinerId, header.trimBps, header.dictionarySize, header.branches);
      ReduceWithHead(h, v, header, r);
      SameHead(h, header.combinerId, header.trimBps, header.dictionarySize, header.branches, r);
    }
    if ReducesTo(h, v, r) {
      var items :|
        && SoundHead(v, r.combinerId, r.trimBps, r.dictionarySize, items)
        && SoundBranches(h, r.combinerId, r.dictionarySize, items)
        && ReductionOf(h, r.combinerId, r.trimBps, r.dictionarySize, items, r);
      HeadMeans(v, r.combinerId, r.trimBps, r.dictionarySize, items);
      SoundHeadIds(v, r.combinerId, r.trimBps, r.dictionarySize, items);
      ReduceWithHead(h, v, Header(r.combinerId, r.trimBps, r.dictionarySize, items), r);
    }
  }

  lemma SameHead(h: Hash, id: nat, trimBps: nat, dictionarySize: nat, items: seq<Json>, r: AggregateReduction)
    requires ReductionOf(h, id, trimBps, dictionarySize, items, r)
    ensures r.combinerId == id && r.trimBps == trimBps && r.dictionarySize == dictionarySize
  {
    hide ResultOf, RootOf, HashesOf, ParamsLine;
  }

  /** Which artifacts reduce at all: those whose head and branches are sound, except that trimmed-mean needs a
      trim fraction below the whole. */
  lemma ReducesExactlyWhen(h: Hash, v: Json)
    ensures Reduce(h, Unbounded, v).Ok?
       <==> exists id, trimBps, dictionarySize, items ::
              && SoundHead(v, id, trimBps, dictionarySize, items) && SoundBranches(h, id, dictionarySize, items)
              && (id == 2 ==> trimBps < 10_000)
  {
    hide SoundHead, SoundBranches, ReductionOf, Reduce, ReadHeader;
    if Reduce(h, Unbounded, v).Ok? {
      var r := Reduce(h, Unbounded, v).value;
      ReduceExactly(h, v, r);
      var items :|
        && SoundHead(v, r.combinerId, r.trimBps, r.dictionarySize, items)
        && SoundBranches(h, r.combinerId, r.dictionarySize, items)
        && ReductionOf(h, r.combinerId, r.trimBps, r.dictionarySize, items, r);
      SoundHeadIds(v, r.combinerId, r.trimBps, r.dictionarySize, items);
      TrimsBelowWhole(h, r.combinerId, r.trimBps, r.dictionarySize, items, r);
    }
    if id, trimBps, dictionarySize, items :|
      && SoundHead(v, id, trimBps, dictionarySize, items) && SoundBranches(h, id, dictionarySize, items)
      && (id == 2 ==> trimBps < 10_000)
    {
      SoundReduces(h, v, Header(id, trimBps, dictionarySize, items));
    }
  }

  lemma TrimsBelowWhole(h: Hash, id: nat, trimBps: nat, dictionarySize: nat, items: seq<Json>, r: AggregateReduction)
    requires ReductionOf(h, id, trimBps, dictionarySize, items, r) && items != []
    ensures id == 2 ==> trimBps < 10_000
  {
    hide RootOf, HashesOf, ParamsLine, SaysScalar;
    if id == 2 {
      CountBelow(|items|, trimBps);
    }
  }

  lemma SoundReduces(h: Hash, v: Json, header: Header)
    requires SoundHead(v, header.combinerId, header.trimBps, header.dictionarySize, header.branches)
    requires SoundBranches(h, header.combinerId, header.dictionarySize, header.branches)
    requires header.combinerId == 2 ==> header.trimBps < 10_000
    ensures Reduce(h, Unbounded, v).Ok?
  {
    hide SoundHead, SoundBranches, ReadHeader, AddBranches, Gathered, Combine, CombinerName, AddsAll;
    HeadMeans(v, header.combinerId, header.trimBps, header.dictionarySize, header.branches);
    SoundHeadIds(v, header.combinerId, header.trimBps, header.dictionarySize, header.branches);
    BranchesMean(h, header, NothingCollected(), header.branches);
    HeaderFacts(Unbounded, v);
    AllBranchesGathered(h, Unbounded, header);
    CombineInRange(h, header, AddBranches(h, Unbounded, header, NothingCollected(), header.branches).value);
  }

  predicate WeightFitsU64(item: Json) {
    NumberAt(item, "weight").Some? && NumberAt(item, "weight").value < 0x1_0000_0000_0000_0000
  }

  predicate WeightsFitU64(v: Json) {
    ItemsAt(v).Some? && forall i :: 0 <= i < |ItemsAt(v).value| ==> WeightFitsU64(ItemsAt(v).value[i])
  }

  lemma WeightsFit(h: Hash, id: nat, dictionarySize: nat, items: seq<Json>)
    requires SoundBranches(h, id, dictionarySize, items)
    ensures forall i :: 0 <= i < |items| ==> (WeightFits(items[i]) <==> WeightFitsU64(items[i]))
  {
    forall i | 0 <= i < |items| ensures WeightFits(items[i]) <==> WeightFitsU64(items[i]) {
      assert SoundBranch(h, id, dictionarySize, items[i]);
      NumberRead(items[i], "weight");
    }
  }

  lemma FitsMeans(h: Hash, v: Json, id: nat, trimBps: nat, dictionarySize: nat, items: seq<Json>)
    requires SoundHead(v, id, trimBps, dictionarySize, items) && SoundBranches(h, id, dictionarySize, items)
    ensures FitsGuest(v) <==> trimBps < 0x1_0000_0000 && dictionarySize < 0x1_0000_0000 && WeightsFitU64(v)
  {
    HeadMeans(v, id, trimBps, dictionarySize, items);
    WeightsFit(h, id, dictionarySize, items);
    hide SoundBranches, ReadHeader, WeightFits, WeightFitsU64;
  }

  /** The guest reduces the same artifacts to the same reductions, as far as its integers reach. */
  lemma GuestReducesExactly(h: Hash, v: Json, r: AggregateReduction)
    ensures Reduce(h, Guest, v) == Ok(r)
       <==> ReducesTo(h, v, r) && r.trimBps < 0x1_0000_0000 && r.dictionarySize < 0x1_0000_0000 && WeightsFitU64(v)
  {
    hide ReductionOf, Reduce, SoundHead, SoundBranches, WeightsFitU64, FitsGuest;
    GuestAcceptsWhatFits(h, v, r);
    ReduceExactly(h, v, r);
    if ReducesTo(h, v, r) {
      var items :|
        && SoundHead(v, r.combinerId, r.trimBps, r.dictionarySize, items)
        && SoundBranches(h, r.combinerId, r.dictionarySize, items)
        && ReductionOf(h, r.combinerId, r.trimBps, r.dictionarySize, items, r);
      FitsMeans(h, v, r.combinerId, r.trimBps, r.dictionarySize, items);
    }
  }
}

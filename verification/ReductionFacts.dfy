/** What an accepted artifact guarantees: results in range, and one verdict for CLI and guest. */
module ReductionFacts {
  import opened Results
  import opened ByteStrings
  import opened Json
  import opened Combiners
  import opened Trimming
  import opened CombinerParams
  import opened Merkle
  import opened Mfb2Parsers
  import opened Reduction
  import Mfb2

  // ----- what the loop over the branches keeps

  ghost predicate ReceiptsInOrder(h: Hash, receipts: seq<Bytes>) {
    && (forall i :: 0 <= i < |receipts| ==> StrictParse(h, receipts[i]).Ok?)
    && (forall i, j :: 0 <= i < j < |receipts| ==>
          StrictParse(h, receipts[i]).value.branchIndex < StrictParse(h, receipts[j]).value.branchIndex)
  }

  ghost predicate ScalarsOk(header: Header, c: Collected) {
    |c.scalars| == |c.receipts| && forall i :: 0 <= i < |c.scalars| ==> InBps(c.scalars[i].value) && c.scalars[i].weight > 0
  }

  ghost predicate VotesOk(header: Header, c: Collected) {
    && |c.votes| == |c.receipts|
    && forall i :: 0 <= i < |c.votes| ==>
         c.votes[i].weight > 0 && c.votes[i].category < header.dictionarySize && c.votes[i].category < 256
  }

  ghost predicate Gathered(h: Hash, header: Header, c: Collected) {
    && ReceiptsInOrder(h, c.receipts)
    && (forall i :: 0 <= i < |c.receipts| ==>
          c.previous.Some? && StrictParse(h, c.receipts[i]).value.branchIndex <= c.previous.value)
    && (if header.combinerId == MAJORITY_VOTE then VotesOk(header, c) else ScalarsOk(header, c))
  }

  lemma ParsedReceiptInRange(h: Hash, data: Bytes)
    requires StrictParse(h, data).Ok?
    ensures var r := StrictParse(h, data).value;
            && r.branchIndex < U32_LIMIT
            && (r.scalar.Some? ==> InBps(r.scalar.value))
            && (r.category.Some? ==> r.category.value < 256)
            && r.resultHash == h(data)
  {
    Mfb2.EncodeOfParse(data);
    hide Mfb2.Parse, Mfb2.Encode;
  }

  lemma AddReceiptGathers(h: Hash, header: Header, c: Collected, declared: nat, receiptBytes: Bytes, receipt: Mfb2.BranchResult, weight: nat)
    requires Gathered(h, header, c)
    requires c.previous.None? || c.previous.value < declared
    requires StrictParse(h, receiptBytes) == Ok(receipt) && receipt.branchIndex == declared
    requires AddReceipt(header, c, declared, receiptBytes, receipt, weight).Ok?
    ensures var next := AddReceipt(header, c, declared, receiptBytes, receipt, weight).value;
            Gathered(h, header, next) && next.receipts == c.receipts + [receiptBytes]
  {
    ParsedReceiptInRange(h, receiptBytes);
    hide StrictParse;
    var next := AddReceipt(header, c, declared, receiptBytes, receipt, weight).value;
    assert ReceiptsInOrder(h, next.receipts);
    if header.combinerId == MAJORITY_VOTE {
      assert VotesOk(header, c) && next.votes == c.votes + [Vote(receipt.category.value, weight)];
      assert VotesOk(header, next);
    } else {
      assert ScalarsOk(header, c) && next.scalars == c.scalars + [Weighted(receipt.scalar.value, weight)];
      assert ScalarsOk(header, next);
    }
  }

  /** The parts of one accepted branch. */
  lemma AddBranchParts(h: Hash, w: Width, header: Header, c: Collected, branch: Json)
    returns (declared: nat, receiptBytes: Bytes, receipt: Mfb2.BranchResult, weight: nat)
    requires AddBranch(h, w, header, c, branch).Ok?
    ensures branch.Obj?
    ensures IndexField(w, branch, "branch_index") == Ok(declared)
    ensures c.previous.None? || c.previous.value < declared
    ensures HexField(w, branch, "result_bytes") == Ok(receiptBytes)
    ensures StrictParse(h, receiptBytes) == Ok(receipt) && receipt.branchIndex == declared
    ensures HashField(w, branch, "result_hash") == Ok(receipt.resultHash)
    ensures UnsignedField(w, branch, "weight") == Ok(weight)
    ensures AddBranch(h, w, header, c, branch) == AddReceipt(header, c, declared, receiptBytes, receipt, weight)
  {
    hide IndexField, HexField, StrictParse, HashField, UnsignedField, AddReceipt;
    declared := IndexField(w, branch, "branch_index").value;
    receiptBytes := HexField(w, branch, "result_bytes").value;
    receipt := StrictParse(h, receiptBytes).value;
    weight := UnsignedField(w, branch, "weight").value;
  }

  lemma {:induction false} BranchesGathered(h: Hash, w: Width, header: Header, c: Collected, branches: seq<Json>)
    requires Gathered(h, header, c)
    requires AddBranches(h, w, header, c, branches).Ok?
    ensures Gathered(h, header, AddBranches(h, w, header, c, branches).value)
    ensures |AddBranches(h, w, header, c, branches).value.receipts| == |c.receipts| + |branches|
    decreases |branches|
  {
    if branches != [] {
      var declared, receiptBytes, receipt, weight := AddBranchParts(h, w, header, c, branches[0]);
      AddReceiptGathers(h, header, c, declared, receiptBytes, receipt, weight);
      hide AddBranch, AddReceipt, Gathered;
      BranchesGathered(h, w, header, AddBranch(h, w, header, c, branches[0]).value, branches[1..]);
    }
  }

  // ----- results in range

  lemma {:induction false} PositiveWeights(values: seq<Weighted>)
    requires forall i :: 0 <= i < |values| ==> values[i].weight > 0
    ensures TotalWeight(values) >= |values|
  {
    if values != [] {
      PositiveWeights(values[1..]);
    }
  }

  lemma {:induction false} SomeVoteWeighs(votes: seq<Vote>, i: nat)
    requires i < |votes| && votes[i].weight > 0
    ensures WeightFor(votes, votes[i].category) > 0
  {
    if i > 0 {
      SomeVoteWeighs(votes[1..], i - 1);
    }
  }

  lemma {:induction false} WinnerHasAVote(votes: seq<Vote>, c: nat)
    requires WeightFor(votes, c) > 0
    ensures exists i :: 0 <= i < |votes| && votes[i].category == c
  {
    if votes[0].category != c {
      WinnerHasAVote(votes[1..], c);
      var i :| 0 <= i < |votes[1..]| && votes[1..][i].category == c;
      assert votes[i + 1].category == c;
    }
  }

  lemma MajorityInRange(header: Header, c: Collected)
    requires c.receipts != [] && VotesOk(header, c)
    ensures MajorityResult(c.votes).Ok? && MajorityResult(c.votes).value < header.dictionarySize
    ensures MajorityResult(c.votes).value < 256
  {
    MajorityResultIsPlurality(c.votes);
    SomeVoteWeighs(c.votes, 0);
    assert MajorityResult(c.votes).Ok?;
    WinnerHasAVote(c.votes, MajorityResult(c.votes).value);
  }

  /** Over gathered branches the combiner fails for one reason only, a trim fraction of 100% or more
      given to trimmed-mean; and its result is a basis-point value, or a label of the dictionary. */
  lemma CombineInRange(h: Hash, header: Header, c: Collected)
    requires CombinerName(header.combinerId).Some?
    requires c.receipts != [] && Gathered(h, header, c)
    ensures Combine(header, c).Err? <==> header.combinerId == TRIMMED_MEAN && header.trimBps >= BPS_SCALE
    ensures Combine(header, c).Err? ==> Combine(header, c).error == CombinerError.ValueOutOfRange
    ensures Combine(header, c).Ok? ==>
              if header.combinerId == MAJORITY_VOTE
              then Combine(header, c).value < header.dictionarySize && Combine(header, c).value < 256
              else Combine(header, c).value <= BPS_SCALE
  {
    if header.combinerId == MAJORITY_VOTE {
      MajorityInRange(header, c);
    } else {
      assert ScalarsOk(header, c);
      assert forall i :: 0 <= i < |c.scalars| ==> c.scalars[i].weight > 0;
      PositiveWeights(c.scalars);
      assert BoundedBy(ValuesOf(c.scalars), 0, BPS_SCALE);
      if header.combinerId == WEIGHTED_MEAN {
        WeightedMeanIsMeanOfRepeated(c.scalars, 0, BPS_SCALE);
      } else if header.trimBps < BPS_SCALE {
        TrimCountLeavesABranch(|c.scalars|, header.trimBps);
        TrimmedMeanInRange(ValuesOf(c.scalars), TrimCount(|c.scalars|, header.trimBps).value, 0, BPS_SCALE);
      }
    }
  }

  lemma HeaderFacts(w: Width, v: Json)
    requires ReadHeader(w, v).Ok?
    ensures var header := ReadHeader(w, v).value;
            && CombinerName(header.combinerId).Some?
            && 1 <= |header.branches| <= MAX_BRANCHES
            && ReadParameters(w, v, header.combinerId) == Ok(header)
  {
    hide UnsignedField, StringField, Parameter, CombinerName;
  }

  /** The steps of an accepted reduction. */
  lemma AcceptedParts(h: Hash, w: Width, v: Json) returns (header: Header, c: Collected, value: nat)
    requires Reduce(h, w, v).Ok?
    ensures ReadHeader(w, v) == Ok(header) && CombinerName(header.combinerId).Some?
    ensures AddBranches(h, w, header, NothingCollected(), header.branches) == Ok(c)
    ensures 1 <= |c.receipts| == |header.branches| <= MAX_BRANCHES
    ensures Gathered(h, header, c)
    ensures Combine(header, c) == Ok(value)
    ensures Finish(h, header, c) == Reduce(h, w, v)
  {
    hide ReadHeader, AddBranches, Finish, Combine, Gathered, CombinerName, ReadParameters, StrictParse, SortedRoot, ParamsLine;
    header := ReadHeader(w, v).value;
    HeaderFacts(w, v);
    c := AddBranches(h, w, header, NothingCollected(), header.branches).value;
    AllBranchesGathered(h, w, header);
    FinishCombines(h, header, c);
    value := Combine(header, c).value;
  }

  lemma AllBranchesGathered(h: Hash, w: Width, header: Header)
    requires AddBranches(h, w, header, NothingCollected(), header.branches).Ok?
    ensures var c := AddBranches(h, w, header, NothingCollected(), header.branches).value;
            Gathered(h, header, c) && |c.receipts| == |header.branches|
  {
    assert Gathered(h, header, NothingCollected());
    hide Gathered, AddBranches;
    BranchesGathered(h, w, header, NothingCollected(), header.branches);
  }

  /** The reduction that finishing makes of what was collected. */
  ghost predicate Finished(h: Hash, header: Header, c: Collected, r: AggregateReduction) {
    && r.combinerId == header.combinerId && r.trimBps == header.trimBps && r.dictionarySize == header.dictionarySize
    && r.paramsDigest == h(ParamsLine(header.combinerId, header.trimBps, header.dictionarySize))
    && Combine(header, c) == Ok(r.resultValue) && r.branchCount == |c.receipts|
    && r.branchHashes == HashAll(h, c.receipts) && r.branchHashes != [] && r.merkleRoot == SortedRoot(h, r.branchHashes)
  }

  lemma FinishCombines(h: Hash, header: Header, c: Collected)
    ensures Finish(h, header, c).Ok? ==> c.receipts != [] && Finished(h, header, c, Finish(h, header, c).value)
  {
    hide Combine, SortedRoot, ParamsLine;
  }

  /** Every accepted artifact has 1 to 128 branches, a combiner id of one byte, and a result that
      packs into 32 bits: no packing error is reachable. */
  lemma ReductionInRange(h: Hash, w: Width, v: Json)
    requires Reduce(h, w, v).Ok?
    ensures var r := Reduce(h, w, v).value;
            && 1 <= r.combinerId <= 3
            && r.resultValue < U32_LIMIT
            && (r.combinerId != MAJORITY_VOTE ==> r.resultValue <= BPS_SCALE)
            && (r.combinerId == MAJORITY_VOTE ==> r.resultValue < r.dictionarySize)
            && 1 <= r.branchCount <= MAX_BRANCHES
            && r.branchCount == |r.branchHashes|
  {
    hide Combine, Gathered, ReadHeader, AddBranches, Reduce, Finish, CombinerName, ParamsLine, SortedRoot, HashAll;
    var header, c, value := AcceptedParts(h, w, v);
    CombineInRange(h, header, c);
    FinishCombines(h, header, c);
    CombinerIds(header.combinerId);
  }

  lemma CombinerIds(id: nat)
    requires CombinerName(id).Some?
    ensures 1 <= id <= 3
  {
  }

  /** The reduction never fails in the combiner except on a trim fraction of 100% or more. */
  lemma OnlyTrimFractionFailsLate(h: Hash, w: Width, v: Json)
    requires Reduce(h, w, v).Err? && Reduce(h, w, v).error.Combiner?
    ensures Reduce(h, w, v).error == Combiner(CombinerError.ValueOutOfRange)
    ensures ReadHeader(w, v).Ok? && ReadHeader(w, v).value.combinerId == TRIMMED_MEAN && ReadHeader(w, v).value.trimBps >= BPS_SCALE
  {
    HeadersDoNotCombine(w, v);
    var header := ReadHeader(w, v).value;
    HeaderFacts(w, v);
    BranchErrors(h, w, header, NothingCollected(), header.branches);
    BranchesGathered(h, w, header, NothingCollected(), header.branches);
    var c := AddBranches(h, w, header, NothingCollected(), header.branches).value;
    CombineInRange(h, header, c);
    hide Combine, Gathered, ReadHeader, AddBranches;
  }

  lemma HeadersDoNotCombine(w: Width, v: Json)
    ensures ReadHeader(w, v).Err? ==> !ReadHeader(w, v).error.Combiner?
  {
  }

  lemma {:induction false} BranchErrors(h: Hash, w: Width, header: Header, c: Collected, branches: seq<Json>)
    ensures AddBranches(h, w, header, c, branches).Err? ==> !AddBranches(h, w, header, c, branches).error.Combiner?
    decreases |branches|
  {
    if branches != [] {
      hide StrictParse;
      var next := AddBranch(h, w, header, c, branches[0]);
      if next.Ok? {
        BranchErrors(h, w, header, next.value, branches[1..]);
      }
    }
  }
}

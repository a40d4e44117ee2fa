/** The reduction as it runs: the CLI's loop over unbounded lists and the guest's over vectors of
    fixed-width integers. */
module ReductionLoops {
  import opened Results
  import opened ByteStrings
  import opened Json
  import opened Combiners
  import opened Trimming
  import opened CombinerParams
  import opened Merkle
  import opened Mfb2Parsers
  import opened Reduction
  import opened ReductionFacts

  /** The element at `i` is next to be added. */
  lemma NextBranch(h: Hash, w: Width, header: Header, c: Collected, branches: seq<Json>, i: nat)
    requires i < |branches|
    ensures var next := AddBranch(h, w, header, c, branches[i]);
            AddBranches(h, w, header, c, branches[i..])
            == if next.Err? then Err(next.error) else AddBranches(h, w, header, next.value, branches[i + 1..])
  {
    assert branches[i..][1..] == branches[i + 1..];
    hide AddBranch;
  }

  lemma HashAllAppend(h: Hash, receipts: seq<Bytes>, receipt: Bytes)
    ensures HashAll(h, receipts + [receipt]) == HashAll(h, receipts) + [h(receipt)]
  {
  }

  lemma ValuesOfAppend(scalars: seq<Weighted>, s: Weighted)
    ensures ValuesOf(scalars + [s]) == ValuesOf(scalars) + [s.value]
  {
  }

  lemma ResultHashIsHash(h: Hash, w: Width, previous: Option<nat>, branch: Json)
    requires ReadBranch(h, w, previous, branch).Ok?
    ensures var read := ReadBranch(h, w, previous, branch).value;
            && read.receipt.resultHash == h(read.receiptBytes)
            && StrictParse(h, read.receiptBytes) == Ok(read.receipt)
            && IndexField(w, branch, "branch_index") == Ok(read.declared)
            && UnsignedField(w, branch, "weight") == Ok(read.weight)
  {
    hide IndexField, HexField, HashField, UnsignedField;
    ParsedReceiptInRange(h, ReadBranch(h, w, previous, branch).value.receiptBytes);
  }

  /** `reduce_aggregate_artifact`: four lists are appended to, then one combiner is applied. */
  method ReduceAggregateArtifact(h: Hash, v: Json) returns (r: Checked<AggregateReduction>)
    ensures r == Reduce(h, Unbounded, v)
  {
    hide ReadHeader, AddBranches, Finish;
    var head := ReadHeader(Unbounded, v);
    if head.Err? {
      return Err(head.error);
    }
    r := ReduceBranches(h, head.value);
  }

  method ReduceBranches(h: Hash, header: Header) returns (r: Checked<AggregateReduction>)
    ensures var c := AddBranches(h, Unbounded, header, NothingCollected(), header.branches);
            r == if c.Err? then Err(c.error) else Finish(h, header, c.value)
  {
    hide ReadBranch, AddBranches, Finish;
    ghost var whole := AddBranches(h, Unbounded, header, NothingCollected(), header.branches);
    var branchHashes: seq<Digest> := [];
    var scalars: seq<Weighted> := [];
    var scalarValues: seq<int> := [];
    var votes: seq<Vote> := [];
    var previousIndex: Option<nat> := None;
    ghost var receipts: seq<Bytes> := [];
    var i := 0;
    assert header.branches[0..] == header.branches;
    while i < |header.branches|
      invariant 0 <= i <= |header.branches|
      invariant whole == AddBranches(h, Unbounded, header, Collected(receipts, scalars, votes, previousIndex), header.branches[i..])
      invariant branchHashes == HashAll(h, receipts)
      invariant scalarValues == ValuesOf(scalars)
    {
      NextBranch(h, Unbounded, header, Collected(receipts, scalars, votes, previousIndex), header.branches, i);
      var next := ReadBranch(h, Unbounded, previousIndex, header.branches[i]);
      if next.Err? {
        return Err(next.error);
      }
      var read := next.value;
      ResultHashIsHash(h, Unbounded, previousIndex, header.branches[i]);
      previousIndex := Some(read.declared);
      if read.weight == 0 {
        return Err(WeightIsZero);
      }
      if header.combinerId == TRIMMED_MEAN && read.weight != 1 {
        return Err(NonUniformWeight);
      }
      HashAllAppend(h, receipts, read.receiptBytes);
      receipts := receipts + [read.receiptBytes];
      branchHashes := branchHashes + [read.receipt.resultHash];
      if header.combinerId == MAJORITY_VOTE {
        if read.receipt.category.None? {
          return Err(MissingLabel);
        }
        if header.dictionarySize == 0 {
          return Err(DictionarySizeMissing);
        }
        if read.receipt.category.value >= header.dictionarySize {
          return Err(LabelOutsideDictionary);
        }
        votes := votes + [Vote(read.receipt.category.value, read.weight)];
      } else {
        if read.receipt.kind.Categorical? || read.receipt.scalar.None? {
          return Err(MissingScalar);
        }
        ValuesOfAppend(scalars, Weighted(read.receipt.scalar.value, read.weight));
        scalars := scalars + [Weighted(read.receipt.scalar.value, read.weight)];
        scalarValues := scalarValues + [read.receipt.scalar.value];
      }
      i := i + 1;
    }
    ghost var c := Collected(receipts, scalars, votes, previousIndex);
    assert whole == Ok(c) by {
      assert header.branches[i..] == [];
      LastBranch(h, Unbounded, header, c);
    }
    r := CombineLists(h, header, c, branchHashes, scalars, scalarValues, votes);
  }

  lemma LastBranch(h: Hash, w: Width, header: Header, c: Collected)
    ensures AddBranches(h, w, header, c, []) == Ok(c)
  {
  }

  method CombineLists(h: Hash, header: Header, ghost c: Collected, branchHashes: seq<Digest>, scalars: seq<Weighted>,
                      scalarValues: seq<int>, votes: seq<Vote>)
    returns (r: Checked<AggregateReduction>)
    requires scalars == c.scalars && votes == c.votes && scalarValues == ValuesOf(scalars)
    requires branchHashes == HashAll(h, c.receipts)
    ensures r == Finish(h, header, c)
  {
    hide WeightedMean, TrimmedMean, MajorityResult, TrimCount, SortedRoot, ParamsLine;
    var value;
    if header.combinerId == WEIGHTED_MEAN {
      value := WeightedMeanBps(scalars);
    } else if header.combinerId == TRIMMED_MEAN {
      var count := TrimCount(|scalarValues|, header.trimBps);
      value := if count.Err? then Err(count.error) else TrimmedMean(scalarValues, count.value);
    } else {
      value := Combiners.MajorityVote(votes);
    }
    if value.Err? {
      return Err(Combiner(value.error));
    }
    var root := SortedBranchesMerkleRoot(h, branchHashes);
    if root.NoBranches? {
      return Err(Combiner(EmptyBranches));
    }
    r := Ok(AggregateReduction(header.combinerId, header.trimBps, header.dictionarySize,
                               h(ParamsLine(header.combinerId, header.trimBps, header.dictionarySize)),
                               value.value, |branchHashes|, branchHashes, root.root));
  }
}

/** The guest's reduction: the same loop over vectors of u32, u64 and i64, no operation overflowing. */
module GuestReductionLoop {
  import opened Results
  import opened ByteStrings
  import opened Json
  import opened Combiners
  import opened Trimming
  import opened CombinerParams
  import opened Merkle
  import opened GuestCombiners
  import opened Reduction
  import opened ReductionFacts
  import opened ReductionLoops
  import GuestAgreement

  lemma WeightedViewAppend(scalars: seq<WeightedValue>, s: WeightedValue)
    ensures WeightedView(scalars + [s]) == WeightedView(scalars) + [Weighted(s.value as int, s.weight as int)]
  {
  }

  lemma VoteViewAppend(votes: seq<CategoricalVote>, v: CategoricalVote)
    ensures VoteView(votes + [v]) == VoteView(votes) + [Vote(v.category as int, v.weight as int)]
  {
  }

  /** What the guest reads fits the widths of its vectors. */
  lemma GuestReadsFit(h: Hash, previous: Option<nat>, branch: Json)
    requires ReadBranch(h, Guest, previous, branch).Ok?
    ensures var read := ReadBranch(h, Guest, previous, branch).value;
            && read.declared < U32_LIMIT && read.weight < U64_LIMIT
            && (read.receipt.scalar.Some? ==> read.receipt.scalar.value <= BPS_SCALE)
            && (read.receipt.category.Some? ==> read.receipt.category.value < 256)
  {
    ResultHashIsHash(h, Guest, previous, branch);
    var read := ReadBranch(h, Guest, previous, branch).value;
    ParsedReceiptInRange(h, read.receiptBytes);
    GuestAgreement.IndexFieldsAgree(branch, "branch_index", read.declared);
    GuestAgreement.UnsignedFieldsAgree(branch, "weight", read.weight);
    hide ReadBranch, IndexField, UnsignedField;
  }

  /** The vectors the guest pushes onto. */
  datatype Vectors = Vectors(
    branchHashes: seq<Digest>,
    scalars: seq<WeightedValue>,
    scalarValues: seq<i64>,
    votes: seq<CategoricalVote>,
    previousIndex: Option<u32>)

  ghost predicate Represents(h: Hash, s: Vectors, c: Collected) {
    && s.branchHashes == HashAll(h, c.receipts)
    && WeightedView(s.scalars) == c.scalars
    && IntView(s.scalarValues) == ValuesOf(c.scalars)
    && VoteView(s.votes) == c.votes
    && (s.previousIndex.Some? <==> c.previous.Some?)
    && (c.previous.Some? ==> s.previousIndex.value as int == c.previous.value)
    && |c.scalars| <= |c.receipts| && |c.votes| <= |c.receipts|
  }

  /** One turn of the loop: push onto the vectors, or the first check that fails. */
  method GuestPush(h: Hash, header: Header, s: Vectors, ghost c: Collected, read: BranchRead) returns (r: Checked<Vectors>)
    requires Represents(h, s, c)
    requires read.declared < U32_LIMIT && read.weight < U64_LIMIT
    requires read.receipt.scalar.Some? ==> read.receipt.scalar.value <= BPS_SCALE
    requires read.receipt.category.Some? ==> read.receipt.category.value < 256
    requires read.receipt.resultHash == h(read.receiptBytes)
    ensures match AddReceipt(header, c, read.declared, read.receiptBytes, read.receipt, read.weight)
            case Err(e) => r == Err(e)
            case Ok(next) => r.Ok? && Represents(h, r.value, next)
  {
    var weight := read.weight as u64;
    if weight == 0 {
      return Err(WeightIsZero);
    }
    if header.combinerId == TRIMMED_MEAN && weight != 1 {
      return Err(NonUniformWeight);
    }
    HashAllAppend(h, c.receipts, read.receiptBytes);
    var next := s.(branchHashes := s.branchHashes + [read.receipt.resultHash], previousIndex := Some(read.declared as u32));
    if header.combinerId == MAJORITY_VOTE {
      if read.receipt.category.None? {
        return Err(MissingLabel);
      }
      if header.dictionarySize == 0 {
        return Err(DictionarySizeMissing);
      }
      if read.receipt.category.value >= header.dictionarySize {
        return Err(LabelOutsideDictionary);
      }
      var vote := CategoricalVote(read.receipt.category.value as u32, weight);
      VoteViewAppend(s.votes, vote);
      r := Ok(next.(votes := s.votes + [vote]));
    } else {
      if read.receipt.kind.Categorical? || read.receipt.scalar.None? {
        return Err(MissingScalar);
      }
      var scalar := read.receipt.scalar.value as i64;
      WeightedViewAppend(s.scalars, WeightedValue(scalar, weight));
      IntViewAppend(s.scalarValues, scalar);
      ValuesOfAppend(c.scalars, Weighted(read.receipt.scalar.value, read.weight));
      r := Ok(next.(scalars := s.scalars + [WeightedValue(scalar, weight)], scalarValues := s.scalarValues + [scalar]));
    }
  }

  /** The loop over the branches. */
  method GuestCollect(h: Hash, header: Header) returns (r: Checked<Vectors>, ghost c: Collected)
    requires |header.branches| <= MAX_BRANCHES
    ensures var whole := AddBranches(h, Guest, header, NothingCollected(), header.branches);
            && (whole.Err? ==> r == Err(whole.error))
            && (whole.Ok? ==> whole.value == c && r.Ok? && Represents(h, r.value, c) && |c.receipts| <= MAX_BRANCHES)
  {
    ghost var whole := AddBranches(h, Guest, header, NothingCollected(), header.branches);
    var s := Vectors([], [], [], [], None);
    c := NothingCollected();
    assert Represents(h, s, c);
    hide ReadBranch, AddBranches, AddReceipt, Represents;
    var i := 0;
    assert header.branches[0..] == header.branches;
    while i < |header.branches|
      invariant 0 <= i <= |header.branches|
      invariant whole == AddBranches(h, Guest, header, c, header.branches[i..])
      invariant Represents(h, s, c)
      invariant (s.previousIndex.Some? <==> c.previous.Some?) && (c.previous.Some? ==> s.previousIndex.value as int == c.previous.value)
      invariant |c.receipts| == i
    {
      NextBranch(h, Guest, header, c, header.branches, i);
      var previous := if s.previousIndex.Some? then Some(s.previousIndex.value as int) else None;
      var next := ReadBranch(h, Guest, previous, header.branches[i]);
      if next.Err? {
        return Err(next.error), c;
      }
      ResultHashIsHash(h, Guest, previous, header.branches[i]);
      GuestReadsFit(h, previous, header.branches[i]);
      var read := next.value;
      ghost var added := AddReceipt(header, c, read.declared, read.receiptBytes, read.receipt, read.weight);
      var pushed := GuestPush(h, header, s, c, read);
      if pushed.Err? {
        return Err(pushed.error), c;
      }
      AddReceiptGrows(header, c, read);
      RepresentsPrevious(h, pushed.value, added.value);
      s := pushed.value;
      c := added.value;
      i := i + 1;
    }
    assert header.branches[i..] == [];
    LastBranch(h, Guest, header, c);
    r := Ok(s);
  }

  lemma AddReceiptGrows(header: Header, c: Collected, read: BranchRead)
    requires AddReceipt(header, c, read.declared, read.receiptBytes, read.receipt, read.weight).Ok?
    ensures var next := AddReceipt(header, c, read.declared, read.receiptBytes, read.receipt, read.weight).value;
            next.receipts == c.receipts + [read.receiptBytes]
  {
  }

  lemma RepresentsPrevious(h: Hash, s: Vectors, c: Collected)
    requires Represents(h, s, c)
    ensures (s.previousIndex.Some? <==> c.previous.Some?) && (c.previous.Some? ==> s.previousIndex.value as int == c.previous.value)
  {
  }

  /** The combiner step and the Merkle root. */
  method GuestFinish(h: Hash, header: Header, s: Vectors, ghost c: Collected) returns (r: Checked<AggregateReduction>)
    requires Represents(h, s, c) && |c.receipts| <= MAX_BRANCHES && header.trimBps < U32_LIMIT && header.dictionarySize < U32_LIMIT
    requires header.combinerId < 256
    ensures r == Finish(h, header, c)
  {
    hide WeightedMean, TrimmedMean, MajorityResult, TrimCount, SortedRoot, ParamsLine;
    var value: Result<u32, CombinerError>;
    if header.combinerId == WEIGHTED_MEAN {
      value := GuestWeightedMeanBps(s.scalars);
    } else if header.combinerId == TRIMMED_MEAN {
      var count := GuestTrimCountFromBps(|s.scalarValues|, header.trimBps as u32);
      if count.Err? {
        return Err(Combiner(count.error));
      }
      value := GuestTrimmedMeanBps(s.scalarValues, count.value);
    } else {
      value := GuestMajorityVote(s.votes);
    }
    if value.Err? {
      return Err(Combiner(value.error));
    }
    var root := SortedBranchesMerkleRoot(h, s.branchHashes);
    if root.NoBranches? {
      return Err(Combiner(EmptyBranches));
    }
    var line := PushParamsLine(header.combinerId, header.trimBps, header.dictionarySize);
    r := Ok(AggregateReduction(header.combinerId, header.trimBps, header.dictionarySize, h(line),
                               value.value as int, |s.branchHashes|, s.branchHashes, root.root));
  }

  /** The whole guest, over a parsed artifact. */
  method GuestReduceAggregateArtifact(h: Hash, v: Json) returns (r: Checked<AggregateReduction>)
    ensures r == Reduce(h, Guest, v)
  {
    hide AddBranches, Finish, ReadHeader, CombinerName, ReadParameters;
    var head := ReadHeader(Guest, v);
    if head.Err? {
      return Err(head.error);
    }
    HeaderFacts(Guest, v);
    GuestAgreement.HeadersAgree(v, head.value);
    CombinerIdsAreSmall(head.value.combinerId);
    var vectors, c := GuestCollect(h, head.value);
    if vectors.Err? {
      return Err(vectors.error);
    }
    r := GuestFinish(h, head.value, vectors.value, c);
  }

  lemma CombinerIdsAreSmall(id: nat)
    requires CombinerName(id).Some?
    ensures 1 <= id <= 3
  {
  }
}

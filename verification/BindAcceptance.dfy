/** Exactly which settled branches bind-aggregate can bind. */
module BindAcceptance {
  import opened Results
  import opened ByteStrings
  import opened Json
  import opened Sorting
  import opened Combiners
  import opened Mfb2Parsers
  import opened Reduction
  import opened ReductionFacts
  import opened CommittedOutputs
  import opened PredictRun
  import opened Agreement
  import opened AgreementTheorems
  import Hex

  /** The receipt carries its branch's index and a value the combiner can use. */
  predicate BranchFits(h: Hash, id: nat, dictionarySize: nat, b: BoundBranch) {
    && StrictParse(h, b.resultBytes).Ok?
    && var receipt := StrictParse(h, b.resultBytes).value;
    && receipt.branchIndex == b.index
    && (if id == MAJORITY_VOTE then receipt.category.Some? && receipt.category.value < dictionarySize
        else !receipt.kind.Categorical? && receipt.scalar.Some?)
  }

  // ----- one branch

  lemma BranchNumbers(h: Hash, b: BoundBranch)
    ensures BranchDocument(h, b).Obj?
    ensures IndexField(Unbounded, BranchDocument(h, b), "branch_index") == Ok(b.index)
    ensures UnsignedField(Unbounded, BranchDocument(h, b), "weight") == Ok(1)
  {
  }

  lemma BranchHash(h: Hash, b: BoundBranch)
    ensures HashField(Unbounded, BranchDocument(h, b), "result_hash") == Ok(h(b.resultBytes))
  {
    Hex.HexTextRoundTrip(h(b.resultBytes));
  }

  lemma BranchReads(h: Hash, previous: Option<nat>, b: BoundBranch)
    ensures ReadBranch(h, Unbounded, previous, BranchDocument(h, b)).Ok?
            <==> (previous.Some? ==> previous.value < b.index) && StrictParse(h, b.resultBytes).Ok?
                 && StrictParse(h, b.resultBytes).value.branchIndex == b.index
    ensures ReadBranch(h, Unbounded, previous, BranchDocument(h, b)).Ok? ==>
              ReadBranch(h, Unbounded, previous, BranchDocument(h, b)).value
              == BranchRead(b.index, b.resultBytes, StrictParse(h, b.resultBytes).value, 1)
  {
    BranchNumbers(h, b);
    BranchHash(h, b);
    BoundBranchField(h, b);
    if StrictParse(h, b.resultBytes).Ok? {
      ParsedReceiptInRange(h, b.resultBytes);
    }
    hide BranchDocument, IndexField, UnsignedField, HashField, HexField, StrictParse;
  }

  /** A bound branch is added exactly when it increases the index and fits. */
  lemma BranchAdds(h: Hash, header: Header, c: Collected, b: BoundBranch)
    ensures var next := AddBranch(h, Unbounded, header, c, BranchDocument(h, b));
            && (next.Ok? <==> (c.previous.Some? ==> c.previous.value < b.index) && BranchFits(h, header.combinerId, header.dictionarySize, b))
            && (next.Ok? ==> next.value.previous == Some(b.index))
  {
    BranchReads(h, c.previous, b);
    hide ReadBranch, BranchDocument, StrictParse;
  }

  lemma {:induction false} BranchesAdd(h: Hash, header: Header, c: Collected, branches: seq<BoundBranch>)
    requires forall i, j :: 0 <= i < j < |branches| ==> branches[i].index < branches[j].index
    requires branches != [] && c.previous.Some? ==> c.previous.value < branches[0].index
    ensures AddBranches(h, Unbounded, header, c, BranchDocuments(h, branches)).Ok?
            <==> forall i :: 0 <= i < |branches| ==> BranchFits(h, header.combinerId, header.dictionarySize, branches[i])
    decreases |branches|
  {
    var documents := BranchDocuments(h, branches);
    if branches != [] {
      BranchAdds(h, header, c, branches[0]);
      hide AddBranch, BranchFits, BranchDocument;
      assert documents[0] == BranchDocument(h, branches[0]) && documents[1..] == BranchDocuments(h, branches[1..]);
      var next := AddBranch(h, Unbounded, header, c, documents[0]);
      if next.Ok? {
        BranchesAdd(h, header, next.value, branches[1..]);
        assert forall i :: 0 < i < |branches| ==> branches[i] == branches[1..][i - 1];
      }
    } else {
      assert documents == [];
    }
  }

  // ----- the head

  lemma DocumentHead(h: Hash, run: RunManifest, id: nat, parameters: map<string, Json>, branches: seq<BoundBranch>)
    ensures var document := ArtifactDocument(h, run, id, parameters, branches);
            && document.Obj? && StringField(Unbounded, document, "schema") == Ok("MFA3")
            && UnsignedField(Unbounded, document, "schema_version") == Ok(3)
  {
    hide BranchDocuments, Sort, PlanOf;
  }

  lemma DocumentIds(h: Hash, run: RunManifest, id: nat, parameters: map<string, Json>, branches: seq<BoundBranch>)
    ensures var document := ArtifactDocument(h, run, id, parameters, branches);
            && UnsignedField(Unbounded, document, "combiner_id") == Ok(id)
            && StringField(Unbounded, document, "combiner") == Ok(run.combiner)
  {
    hide BranchDocuments, Sort, PlanOf;
  }

  lemma CombinerNamesRoundTrip(name: string)
    requires CombinerIdOf(name).Some?
    ensures CombinerName(CombinerIdOf(name).value) == Some(name)
  {
    assert "weighted-mean"[0] != "trimmed-mean"[0] && "majority-vote"[0] != "trimmed-mean"[0];
  }

  lemma DocumentItems(h: Hash, run: RunManifest, id: nat, parameters: map<string, Json>, branches: seq<BoundBranch>)
    requires forall i, j :: 0 <= i < j < |branches| ==> branches[i].index < branches[j].index
    ensures ArtifactDocument(h, run, id, parameters, branches).Get("branches") == Some(Arr(BranchDocuments(h, branches)))
  {
    SortKeepsSorted(branches);
    hide BranchDocuments, Sort, PlanOf;
  }

  /** What the parameters read as, if they are numbers at all. */
  function TrimOf(parameters: map<string, Json>): Checked<nat> {
    Parameter(Unbounded, Obj(parameters), "trim_bps")
  }

  function SizeOf(parameters: map<string, Json>): Checked<nat> {
    Parameter(Unbounded, Obj(parameters), "category_dictionary_size")
  }

  lemma HeadPasses(v: Json, id: nat)
    requires v.Obj? && StringField(Unbounded, v, "schema") == Ok("MFA3") && UnsignedField(Unbounded, v, "schema_version") == Ok(3)
    requires UnsignedField(Unbounded, v, "combiner_id") == Ok(id) && CombinerName(id).Some?
    requires StringField(Unbounded, v, "combiner") == Ok(CombinerName(id).value)
    ensures ReadHeader(Unbounded, v) == ReadParameters(Unbounded, v, id)
  {
    hide StringField, UnsignedField, CombinerName, ReadParameters;
  }

  lemma ParametersRead(v: Json, id: nat, parameters: map<string, Json>, items: seq<Json>)
    requires v.Get("combiner_parameters") == Some(Obj(parameters)) && v.Get("branches") == Some(Arr(items))
    ensures var header := ReadParameters(Unbounded, v, id);
            && (header.Ok? <==> TrimOf(parameters).Ok? && SizeOf(parameters).Ok? && 1 <= |items| <= MAX_BRANCHES)
            && (header.Ok? ==> header.value == Header(id, TrimOf(parameters).value, SizeOf(parameters).value, items))
  {
    hide Parameter;
  }

  lemma DocumentHeader(h: Hash, run: RunManifest, parameters: map<string, Json>, branches: seq<BoundBranch>)
    requires CombinerIdOf(run.combiner).Some?
    requires forall i, j :: 0 <= i < j < |branches| ==> branches[i].index < branches[j].index
    ensures var id := CombinerIdOf(run.combiner).value;
            var header := ReadHeader(Unbounded, ArtifactDocument(h, run, id, parameters, branches));
            && (header.Ok? <==> TrimOf(parameters).Ok? && SizeOf(parameters).Ok? && 1 <= |branches| <= MAX_BRANCHES)
            && (header.Ok? ==> header.value == Header(id, TrimOf(parameters).value, SizeOf(parameters).value, BranchDocuments(h, branches)))
  {
    var id := CombinerIdOf(run.combiner).value;
    var document := ArtifactDocument(h, run, id, parameters, branches);
    hide ArtifactDocument, CombinerIdOf, CombinerName, StringField, UnsignedField, TrimOf, SizeOf, ReadHeader, ReadParameters;
    DocumentHead(h, run, id, parameters, branches);
    DocumentIds(h, run, id, parameters, branches);
    DocumentParameters(h, run, id, parameters, branches);
    DocumentItems(h, run, id, parameters, branches);
    CombinerNamesRoundTrip(run.combiner);
    HeadPasses(document, id);
    ParametersRead(document, id, parameters, BranchDocuments(h, branches));
  }

  // ----- the whole

  /** The branches and parameters that reduce. */
  ghost predicate Reducible(h: Hash, id: nat, parameters: map<string, Json>, branches: seq<BoundBranch>) {
    && TrimOf(parameters).Ok? && SizeOf(parameters).Ok?
    && 1 <= |branches| <= MAX_BRANCHES
    && (id == TRIMMED_MEAN ==> TrimOf(parameters).value < BPS_SCALE)
    && forall i :: 0 <= i < |branches| ==> BranchFits(h, id, SizeOf(parameters).value, branches[i])
  }

  lemma FinishSucceeds(h: Hash, header: Header, c: Collected)
    requires CombinerName(header.combinerId).Some? && c.receipts != [] && Gathered(h, header, c)
    ensures Finish(h, header, c).Ok? <==> !(header.combinerId == TRIMMED_MEAN && header.trimBps >= BPS_SCALE)
  {
    hide Gathered, Combine, CombinerName;
    CombineInRange(h, header, c);
  }

  /** With its header read, an artifact reduces when the branches fit and the trim fraction is in range. */
  lemma ReducesWithHeader(h: Hash, v: Json, header: Header, branches: seq<BoundBranch>)
    requires ReadHeader(Unbounded, v) == Ok(header) && CombinerName(header.combinerId).Some?
    requires header.branches == BranchDocuments(h, branches) && branches != []
    requires forall i, j :: 0 <= i < j < |branches| ==> branches[i].index < branches[j].index
    ensures Reduce(h, Unbounded, v).Ok?
            <==> && !(header.combinerId == TRIMMED_MEAN && header.trimBps >= BPS_SCALE)
                 && forall i :: 0 <= i < |branches| ==> BranchFits(h, header.combinerId, header.dictionarySize, branches[i])
  {
    hide ReadHeader, CombinerName, BranchFits, AddBranches, Finish, BranchDocuments;
    BranchesAdd(h, header, NothingCollected(), branches);
    var c := AddBranches(h, Unbounded, header, NothingCollected(), header.branches);
    if c.Ok? {
      AllBranchesGathered(h, Unbounded, header);
      hide Gathered;
      FinishSucceeds(h, header, c.value);
    }
  }

  lemma HeaderNeeded(h: Hash, v: Json)
    ensures Reduce(h, Unbounded, v).Ok? ==> ReadHeader(Unbounded, v).Ok?
  {
    hide ReadHeader, AddBranches, Finish;
  }

  /** The artifact built for collected branches reduces exactly when there are 1 to 128 of them, each
      receipt carries its index and a usable value, and the parameters are numbers in range. */
  lemma ArtifactReduces(h: Hash, run: RunManifest, parameters: map<string, Json>, branches: seq<BoundBranch>)
    requires CombinerIdOf(run.combiner).Some?
    requires forall i, j :: 0 <= i < j < |branches| ==> branches[i].index < branches[j].index
    ensures var id := CombinerIdOf(run.combiner).value;
            Reduce(h, Unbounded, ArtifactDocument(h, run, id, parameters, branches)).Ok? <==> Reducible(h, id, parameters, branches)
  {
    var id := CombinerIdOf(run.combiner).value;
    var document := ArtifactDocument(h, run, id, parameters, branches);
    hide ReadHeader, ArtifactDocument, CombinerIdOf, CombinerName, BranchFits, TrimOf, SizeOf, BranchDocuments, Reduce;
    DocumentHeader(h, run, parameters, branches);
    CombinerNamesRoundTrip(run.combiner);
    HeaderNeeded(h, document);
    var header := ReadHeader(Unbounded, document);
    if header.Ok? {
      ReducesWithHeader(h, document, header.value, branches);
    }
  }

  lemma JournalOfDocument(h: Hash, codec: Codec, document: Json)
    requires codec.dec(codec.enc(document)) == Some(document)
    ensures Journal(h, codec, codec.enc(document)).Ok? <==> Reduce(h, Unbounded, document).Ok?
  {
    hide Reduce;
  }

  /** The last step of binding, once nothing before it refused. */
  lemma BindReduces(h: Hash, codec: Codec, ipfs: Ipfs, cidOf: Bytes -> string, accounts: Accounts, run: RunManifest, image: Digest,
                    allow: bool, branches: seq<BoundBranch>, parameters: map<string, Json>, id: nat)
    requires CollectReceipts(h, accounts, run.branches, allow) == Ok(branches)
    requires BindPlanCheck(codec, ipfs, run, JobsOf(branches), image) == None
    requires BindParameters(run) == Ok(parameters) && CombinerIdOf(run.combiner) == Some(id)
    ensures Bind(h, codec, ipfs, cidOf, accounts, run, image, allow).Ok?
            <==> Journal(h, codec, codec.enc(ArtifactDocument(h, run, id, parameters, branches))).Ok?
  {
    hide CollectReceipts, BindPlanCheck, BindParameters, CombinerIdOf, Journal, ArtifactDocument, FramedInputDigest, ExpectedHash, JobsOf;
  }

  /** What binding needs of the collected branches. */
  ghost predicate Bindable(h: Hash, codec: Codec, ipfs: Ipfs, run: RunManifest, image: Digest, branches: seq<BoundBranch>) {
    && BindPlanCheck(codec, ipfs, run, JobsOf(branches), image) == None
    && CombinerIdOf(run.combiner).Some?
    && match BindParameters(run)
       case Err(_) => false
       case Ok(parameters) => Reducible(h, CombinerIdOf(run.combiner).value, parameters, branches)
  }

  lemma BindRefusesEarly(h: Hash, codec: Codec, ipfs: Ipfs, cidOf: Bytes -> string, accounts: Accounts, run: RunManifest, image: Digest,
                         allow: bool, branches: seq<BoundBranch>)
    requires CollectReceipts(h, accounts, run.branches, allow) == Ok(branches)
    ensures Bind(h, codec, ipfs, cidOf, accounts, run, image, allow).Ok? ==>
              BindPlanCheck(codec, ipfs, run, JobsOf(branches), image) == None && BindParameters(run).Ok? && CombinerIdOf(run.combiner).Some?
  {
    hide CollectReceipts, BindPlanCheck, BindParameters, CombinerIdOf, Journal, ArtifactDocument, FramedInputDigest, ExpectedHash, JobsOf;
  }

  lemma BindReducible(h: Hash, codec: Codec, ipfs: Ipfs, cidOf: Bytes -> string, accounts: Accounts, run: RunManifest, image: Digest,
                      allow: bool, branches: seq<BoundBranch>, parameters: map<string, Json>, id: nat)
    requires codec.Faithful() && Increasing(run.branches)
    requires CollectReceipts(h, accounts, run.branches, allow) == Ok(branches)
    requires BindPlanCheck(codec, ipfs, run, JobsOf(branches), image) == None
    requires BindParameters(run) == Ok(parameters) && CombinerIdOf(run.combiner) == Some(id)
    ensures Bind(h, codec, ipfs, cidOf, accounts, run, image, allow).Ok? <==> Reducible(h, id, parameters, branches)
  {
    hide Bind, CollectReceipts, BindPlanCheck, BindParameters, CombinerIdOf, Reducible, Reduce, ArtifactDocument, Journal, JobsOf;
    CollectedIncrease(h, accounts, run.branches, allow, branches);
    BindReduces(h, codec, ipfs, cidOf, accounts, run, image, allow, branches, parameters, id);
    ArtifactReduces(h, run, parameters, branches);
    JournalOfDocument(h, codec, ArtifactDocument(h, run, id, parameters, branches));
  }

  /** Once the receipts are collected, bind-aggregate succeeds if and only if the pinned plan is met, the
      combiner is known, a majority-vote run has its dictionary, and what was collected is reducible. */
  lemma BindSucceeds(h: Hash, codec: Codec, ipfs: Ipfs, cidOf: Bytes -> string, accounts: Accounts, run: RunManifest,
                     image: Digest, allow: bool, branches: seq<BoundBranch>)
    requires codec.Faithful() && Increasing(run.branches)
    requires CollectReceipts(h, accounts, run.branches, allow) == Ok(branches)
    ensures Bind(h, codec, ipfs, cidOf, accounts, run, image, allow).Ok? <==> Bindable(h, codec, ipfs, run, image, branches)
  {
    hide Bind, CollectReceipts, BindPlanCheck, BindParameters, CombinerIdOf, Reducible, JobsOf, Increasing;
    BindRefusesEarly(h, codec, ipfs, cidOf, accounts, run, image, allow, branches);
    if BindPlanCheck(codec, ipfs, run, JobsOf(branches), image) == None && BindParameters(run).Ok? && CombinerIdOf(run.combiner).Some? {
      BindReducible(h, codec, ipfs, cidOf, accounts, run, image, allow, branches, BindParameters(run).value, CombinerIdOf(run.combiner).value);
    }
  }

  // ----- a majority-vote run that binds and is then refused

  const LABEL_RECEIPT := Mfb2.Receipt(Mfb2.Categorical, 0, None, None, None, Some(0), None, ZERO_HASH)

  lemma LabelReceiptParses(h: Hash)
    ensures Mfb2.Encode(LABEL_RECEIPT) != []
    ensures var parsed := StrictParse(h, Mfb2.Encode(LABEL_RECEIPT));
            parsed.Ok? && parsed.value.branchIndex == 0 && parsed.value.category == Some(0)
  {
    Mfb2.ParseOfEncode(LABEL_RECEIPT);
    Mfb2.EncodingLength(LABEL_RECEIPT);
    hide Mfb2.Parse, Mfb2.Encode;
  }

  const VOTE_RUN := RunManifest("run", "manifest", "schema", "majority-vote", map[], [BranchJob(0, "branch")], Some("plan"), 1)
  const VOTE_PLAN := Obj(map["combiner" := Str("majority-vote")])

  lemma VotePlanFollowed()
    ensures FollowsPlan(VOTE_PLAN, Some(Str("majority-vote")), map[], ["branch"]) && PlanImage(VOTE_PLAN) == Some("")
  {
    assert VOTE_PLAN.Get("combiner_parameters") == None && VOTE_PLAN.Get("branch_jobs") == None && VOTE_PLAN.Get("bonsol") == None;
  }

  function VoteAccount(h: Hash, receipt: Bytes): Account {
    Account(BranchProof, Settled, false, "output", receipt, h(receipt))
  }

  function VoteBranch(receipt: Bytes): BoundBranch {
    BoundBranch(0, "branch", "output", receipt)
  }

  lemma VoteCollects(h: Hash, receipt: Bytes)
    requires receipt != []
    ensures CollectReceipts(h, map["branch" := VoteAccount(h, receipt)], VOTE_RUN.branches, false) == Ok([VoteBranch(receipt)])
  {
    var accounts := map["branch" := VoteAccount(h, receipt)];
    assert CollectReceipts(h, accounts, VOTE_RUN.branches[1..], false) == Ok([]);
    assert [VoteBranch(receipt)] + [] == [VoteBranch(receipt)];
  }

  lemma VoteReducible(h: Hash)
    ensures BindParameters(VOTE_RUN) == Ok(map["category_dictionary_size" := Int(1)])
    ensures CombinerIdOf(VOTE_RUN.combiner) == Some(MAJORITY_VOTE)
    ensures Reducible(h, MAJORITY_VOTE, map["category_dictionary_size" := Int(1)], [VoteBranch(Mfb2.Encode(LABEL_RECEIPT))])
  {
    LabelReceiptParses(h);
    hide Mfb2.Encode, StrictParse;
    assert "majority-vote"[0] != "weighted-mean"[0] && "majority-vote"[0] != "trimmed-mean"[0];
    var parameters: map<string, Json> := map["category_dictionary_size" := Int(1)];
    assert VOTE_RUN.parameters["category_dictionary_size" := Int(1)] == parameters;
    assert "trim_bps" !in parameters by {
      assert "trim_bps"[0] != "category_dictionary_size"[0];
    }
    assert TrimOf(parameters) == Ok(0) && SizeOf(parameters) == Ok(1);
  }

  lemma VotePlanMet(codec: Codec, ipfs: Ipfs, image: Digest)
    requires ReadJson(codec, ipfs, "plan") == Some(VOTE_PLAN)
    ensures BindPlanCheck(codec, ipfs, VOTE_RUN, ["branch"], image) == None
  {
    VotePlanFollowed();
    hide FollowsPlan, PlanImage, ReadJson;
  }

  /** Where binding pins its artifact. */
  lemma BindPins(h: Hash, codec: Codec, ipfs: Ipfs, cidOf: Bytes -> string, accounts: Accounts, run: RunManifest, image: Digest,
                 allow: bool, branches: seq<BoundBranch>, parameters: map<string, Json>, id: nat)
    requires Bind(h, codec, ipfs, cidOf, accounts, run, image, allow).Ok?
    requires CollectReceipts(h, accounts, run.branches, allow) == Ok(branches)
    requires BindParameters(run) == Ok(parameters) && CombinerIdOf(run.combiner) == Some(id)
    ensures var bound := Bind(h, codec, ipfs, cidOf, accounts, run, image, allow).value;
            bound.artifact == codec.enc(ArtifactDocument(h, run, id, parameters, branches)) && bound.job.inputCid == cidOf(bound.artifact)
  {
    var collected, read, document := BindParts(h, codec, ipfs, cidOf, accounts, run, image, allow);
    hide Bind, CollectReceipts, BindParameters, CombinerIdOf, ArtifactDocument, BindPlanCheck, Journal;
  }

  lemma VoteBindable(h: Hash, codec: Codec, ipfs: Ipfs, image: Digest, receipt: Bytes)
    requires receipt == Mfb2.Encode(LABEL_RECEIPT) && ReadJson(codec, ipfs, "plan") == Some(VOTE_PLAN)
    ensures Bindable(h, codec, ipfs, VOTE_RUN, image, [VoteBranch(receipt)])
  {
    hide Mfb2.Encode, ReadJson, BindParameters, CombinerIdOf, Reducible, BindPlanCheck;
    VoteReducible(h);
    VotePlanMet(codec, ipfs, image);
    assert JobsOf([VoteBranch(receipt)]) == ["branch"];
  }

  lemma VoteBinds(h: Hash, codec: Codec, ipfs: Ipfs, cidOf: Bytes -> string, image: Digest, receipt: Bytes)
    requires codec.Faithful() && receipt == Mfb2.Encode(LABEL_RECEIPT) && ReadJson(codec, ipfs, "plan") == Some(VOTE_PLAN)
    ensures Bind(h, codec, ipfs, cidOf, map["branch" := VoteAccount(h, receipt)], VOTE_RUN, image, false).Ok?
  {
    LabelReceiptParses(h);
    VoteFacts(h, receipt);
    hide Mfb2.Encode, Bind, CollectReceipts, ReadJson, Bindable, Increasing, VoteAccount;
    VoteCollects(h, receipt);
    VoteBindable(h, codec, ipfs, image, receipt);
    BindSucceeds(h, codec, ipfs, cidOf, map["branch" := VoteAccount(h, receipt)], VOTE_RUN, image, false, [VoteBranch(receipt)]);
  }

  lemma VoteFacts(h: Hash, receipt: Bytes)
    ensures var accounts := map["branch" := VoteAccount(h, receipt)];
            AllReady(VOTE_RUN, accounts, false) && SameReceipts(VOTE_RUN, accounts, accounts)
    ensures Increasing(VOTE_RUN.branches) && PlanOf(VOTE_RUN) == Some("plan") && !ParametersKept(VOTE_RUN)
  {
  }

  lemma VoteRefused(h: Hash, codec: Codec, ipfs: Ipfs, cidOf: Bytes -> string, image: Digest, receipt: Bytes)
    requires codec.Faithful() && receipt == Mfb2.Encode(LABEL_RECEIPT) && image != ZERO_HASH
    requires ReadJson(codec, ipfs, "plan") == Some(VOTE_PLAN)
    requires var artifact := codec.enc(ArtifactDocument(h, VOTE_RUN, MAJORITY_VOTE, map["category_dictionary_size" := Int(1)], [VoteBranch(receipt)]));
             ipfs(cidOf(artifact)) == Some(artifact)
    ensures var accounts := map["branch" := VoteAccount(h, receipt)];
            && Bind(h, codec, ipfs, cidOf, accounts, VOTE_RUN, image, false).Ok?
            && RunnerBinds(h, codec, ipfs, accounts, Bind(h, codec, ipfs, cidOf, accounts, VOTE_RUN, image, false).value.job, false) == Err(PlanDiffers)
  {
    var accounts := map["branch" := VoteAccount(h, receipt)];
    LabelReceiptParses(h);
    VoteCollects(h, receipt);
    VoteReducible(h);
    VoteFacts(h, receipt);
    VoteBinds(h, codec, ipfs, cidOf, image, receipt);
    hide Mfb2.Encode, Bind, CollectReceipts, ReadJson, BindParameters, CombinerIdOf, ArtifactDocument, RunnerBinds, AllReady, SameReceipts, PlanOf, ParametersKept, Reducible, Increasing;
    BindPins(h, codec, ipfs, cidOf, accounts, VOTE_RUN, image, false, [VoteBranch(receipt)], map["category_dictionary_size" := Int(1)], MAJORITY_VOTE);
    RunnerAcceptsBoundJob(h, codec, ipfs, cidOf, accounts, accounts, VOTE_RUN, image, false, false);
  }

  /** Two things are pinned: the plan and the artifact. */
  function VoteIpfs(plan: Bytes, artifact: Bytes): Ipfs {
    cid => if cid == "plan" then Some(plan) else Some(artifact)
  }

  lemma VoteReads(codec: Codec, artifact: Bytes)
    requires codec.Faithful()
    ensures ReadJson(codec, VoteIpfs(codec.enc(VOTE_PLAN), artifact), "plan") == Some(VOTE_PLAN)
    ensures VoteIpfs(codec.enc(VOTE_PLAN), artifact)("artifact") == Some(artifact)
  {
  }

  /** Such a run exists: one settled branch with label 0, a plan that names only the combiner, a dictionary
      of one.  Whatever the hash and the faithful codec, it binds, and the runner refuses what it bound. */
  lemma MajorityVoteBindsAndIsRefused(h: Hash, codec: Codec)
    returns (ipfs: Ipfs, cidOf: Bytes -> string, accounts: Accounts, run: RunManifest, image: Digest)
    requires codec.Faithful()
    ensures run.combiner == "majority-vote" && AllReady(run, accounts, false)
    ensures Bind(h, codec, ipfs, cidOf, accounts, run, image, false).Ok?
    ensures RunnerBinds(h, codec, ipfs, accounts, Bind(h, codec, ipfs, cidOf, accounts, run, image, false).value.job, false)
            == Err(PlanDiffers)
  {
    hide Mfb2.Encode, Bind, ArtifactDocument, RunnerBinds, AllReady, SameReceipts, VoteAccount, ReadJson, VoteIpfs, Increasing, PlanOf, ParametersKept;
    var receipt := Mfb2.Encode(LABEL_RECEIPT);
    run, accounts, image := VOTE_RUN, map["branch" := VoteAccount(h, receipt)], seq(32, (i: int) => 1);
    assert image[0] != ZERO_HASH[0];
    VoteFacts(h, receipt);
    var artifact := codec.enc(ArtifactDocument(h, run, MAJORITY_VOTE, map["category_dictionary_size" := Int(1)], [VoteBranch(receipt)]));
    ipfs, cidOf := VoteIpfs(codec.enc(VOTE_PLAN), artifact), bytes => "artifact";
    VoteReads(codec, artifact);
    VoteRefused(h, codec, ipfs, cidOf, image, receipt);
  }
}

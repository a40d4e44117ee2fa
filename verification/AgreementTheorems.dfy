/** What one party accepts the next accepts too, and exactly when it does not. */
module AgreementTheorems {
  import opened Results
  import opened ByteStrings
  import opened Json
  import opened Sorting
  import opened Mfb2Parsers
  import opened Reduction
  import opened ReductionFacts
  import opened CommittedOutputs
  import opened Agreement
  import opened GuestAgreement
  import Hex

  // ----- what the collection hands on

  ghost predicate Increasing(branches: seq<BranchJob>) {
    forall i, j :: 0 <= i < j < |branches| ==> branches[i].index < branches[j].index
  }

  lemma {:induction false} CollectedReceipts(h: Hash, accounts: Accounts, branches: seq<BranchJob>, allow: bool)
    requires CollectReceipts(h, accounts, branches, allow).Ok?
    ensures var bound := CollectReceipts(h, accounts, branches, allow).value;
            && |bound| == |branches|
            && forall i :: 0 <= i < |bound| ==>
                 && bound[i].index == branches[i].index && bound[i].job == branches[i].job && branches[i].job in accounts
                 && bound[i].outputCid == accounts[branches[i].job].outputCid
                 && bound[i].resultBytes == accounts[branches[i].job].resultBytes
                 && h(bound[i].resultBytes) == accounts[branches[i].job].resultHash
  {
    if branches != [] {
      CollectedReceipts(h, accounts, branches[1..], allow);
    }
  }

  lemma InsertFirst(x: BoundBranch, s: seq<BoundBranch>)
    requires s == [] || x.index <= s[0].index
    ensures Insert(x, s, ByIndex) == [x] + s
  {
  }

  lemma {:induction false} SortKeepsSorted(s: seq<BoundBranch>)
    requires forall i, j :: 0 <= i < j < |s| ==> s[i].index < s[j].index
    ensures Sort(s, ByIndex) == s
    decreases |s|
  {
    if s != [] {
      var rest := s[1..];
      SortKeepsSorted(rest);
      assert rest == [] || s[0].index <= rest[0].index;
      InsertFirst(s[0], rest);
      hide Insert;
      assert s == [s[0]] + rest;
    }
  }

  lemma CollectedIncrease(h: Hash, accounts: Accounts, branches: seq<BranchJob>, allow: bool, bound: seq<BoundBranch>)
    requires Increasing(branches) && CollectReceipts(h, accounts, branches, allow) == Ok(bound)
    ensures forall i, j :: 0 <= i < j < |bound| ==> bound[i].index < bound[j].index
  {
    CollectedReceipts(h, accounts, branches, allow);
    hide CollectReceipts;
  }

  // ----- what the reduction says of each branch

  lemma {:induction false} AddedBranchParses(h: Hash, header: Header, c: Collected, branches: seq<Json>, i: nat)
    requires AddBranches(h, Unbounded, header, c, branches).Ok? && i < |branches|
    ensures HexField(Unbounded, branches[i], "result_bytes").Ok?
    ensures StrictParse(h, HexField(Unbounded, branches[i], "result_bytes").value).Ok?
    decreases |branches|
  {
    var next := AddBranch(h, Unbounded, header, c, branches[0]).value;
    if i > 0 {
      hide AddBranch, HexField, StrictParse;
      AddedBranchParses(h, header, next, branches[1..], i - 1);
    } else {
      var declared, receiptBytes, receipt, weight := AddBranchParts(h, Unbounded, header, c, branches[0]);
    }
  }

  lemma HeaderBranches(v: Json)
    requires ReadHeader(Unbounded, v).Ok?
    ensures ReadHeader(Unbounded, v).value.branches == DocumentBranches(v)
  {
    var header := ReadHeader(Unbounded, v).value;
    HeaderFacts(Unbounded, v);
    hide ReadHeader;
  }

  /** Every branch of an accepted artifact carries a receipt the strict parser accepts. */
  lemma ReducedBranchParses(h: Hash, v: Json, i: nat)
    requires Reduce(h, Unbounded, v).Ok? && i < |DocumentBranches(v)|
    ensures var bytes := HexField(Unbounded, DocumentBranches(v)[i], "result_bytes");
            bytes.Ok? && StrictParse(h, bytes.value).Ok? && StrictParse(h, bytes.value).value.resultHash == h(bytes.value)
  {
    hide HexField, StrictParse, ReadHeader, DocumentBranches, Reduce, Gathered, Combine, Finish, AddBranches, CombinerName;
    var header, c, value := AcceptedParts(h, Unbounded, v);
    HeaderBranches(v);
    AddedBranchParses(h, header, NothingCollected(), header.branches, i);
    ParsedReceiptInRange(h, HexField(Unbounded, header.branches[i], "result_bytes").value);
  }

  // ----- branch by branch

  lemma BoundBranchField(h: Hash, b: BoundBranch)
    ensures BranchDocument(h, b).Get("job") == Some(Str(b.job))
    ensures HexField(Unbounded, BranchDocument(h, b), "result_bytes") == Ok(b.resultBytes)
  {
    Hex.HexTextRoundTrip(b.resultBytes);
  }

  /** The receipt of a bound branch is one the strict parser accepts. */
  predicate Parses(h: Hash, b: BoundBranch) {
    StrictParse(h, b.resultBytes).Ok? && StrictParse(h, b.resultBytes).value.resultHash == h(b.resultBytes)
  }

  /** The runner accepts a bound branch exactly when its job is a branch job that is ready. */
  lemma BoundBranchAccepted(h: Hash, accounts: Accounts, b: BoundBranch, allow: bool)
    requires b.job in accounts && accounts[b.job].resultHash == h(b.resultBytes)
    requires Parses(h, b)
    ensures BranchRefusal(h, accounts, BranchDocument(h, b), allow) == None
            <==> accounts[b.job].jobClass == BranchProof && Ready(accounts[b.job], allow)
  {
    BoundBranchField(h, b);
    hide BranchDocument, StrictParse, HexField;
  }

  lemma FirstRefusalStep(h: Hash, accounts: Accounts, branches: seq<Json>, allow: bool)
    requires branches != []
    ensures FirstRefusal(h, accounts, branches, allow) == None
            <==> BranchRefusal(h, accounts, branches[0], allow) == None && FirstRefusal(h, accounts, branches[1..], allow) == None
  {
    hide BranchRefusal;
  }

  lemma {:induction false} NoRefusal(h: Hash, accounts: Accounts, branches: seq<Json>, allow: bool)
    ensures FirstRefusal(h, accounts, branches, allow) == None
            <==> forall i :: 0 <= i < |branches| ==> BranchRefusal(h, accounts, branches[i], allow) == None
    decreases |branches|
  {
    hide BranchRefusal;
    if branches != [] {
      FirstRefusalStep(h, accounts, branches, allow);
      hide FirstRefusal;
      var rest := branches[1..];
      NoRefusal(h, accounts, rest, allow);
      assert forall i :: 0 < i < |branches| ==> branches[i] == rest[i - 1];
      assert forall i :: 0 <= i < |rest| ==> rest[i] == branches[i + 1];
    }
  }

  // ----- the bound artifact

  /** The branch accounts as the runner finds them: classes and receipts are fixed once submitted, the
      status need not be. */
  ghost predicate SameReceipts(run: RunManifest, accounts: Accounts, later: Accounts) {
    forall i :: 0 <= i < |run.branches| && run.branches[i].job in accounts ==>
      && run.branches[i].job in later
      && later[run.branches[i].job].jobClass == BranchProof
      && later[run.branches[i].job].resultHash == accounts[run.branches[i].job].resultHash
  }

  ghost predicate AllReady(run: RunManifest, accounts: Accounts, allow: bool) {
    forall i :: 0 <= i < |run.branches| ==> run.branches[i].job in accounts && Ready(accounts[run.branches[i].job], allow)
  }

  /** What `Bind` produced on the way, when it succeeds. */
  ghost predicate BoundAs(h: Hash, codec: Codec, ipfs: Ipfs, cidOf: Bytes -> string, accounts: Accounts, run: RunManifest, image: Digest,
                          allow: bool, branches: seq<BoundBranch>, parameters: map<string, Json>, document: Json)
  {
    && CollectReceipts(h, accounts, run.branches, allow) == Ok(branches)
    && BindPlanCheck(codec, ipfs, run, JobsOf(branches), image) == None
    && BindParameters(run) == Ok(parameters)
    && CombinerIdOf(run.combiner).Some?
    && document == ArtifactDocument(h, run, CombinerIdOf(run.combiner).value, parameters, branches)
    && var artifact := codec.enc(document);
    && Journal(h, codec, artifact).Ok?
    && Bind(h, codec, ipfs, cidOf, accounts, run, image, allow)
       == Ok(Bound(AggregateJob(cidOf(artifact), FramedInputDigest(h, artifact), ExpectedHash(h, artifact, Journal(h, codec, artifact).value), image), artifact))
  }

  lemma BindParts(h: Hash, codec: Codec, ipfs: Ipfs, cidOf: Bytes -> string, accounts: Accounts, run: RunManifest, image: Digest, allow: bool)
    returns (branches: seq<BoundBranch>, parameters: map<string, Json>, document: Json)
    requires Bind(h, codec, ipfs, cidOf, accounts, run, image, allow).Ok?
    ensures BoundAs(h, codec, ipfs, cidOf, accounts, run, image, allow, branches, parameters, document)
  {
    hide CollectReceipts, BindPlanCheck, BindParameters, CombinerIdOf, ArtifactDocument, Journal, ExpectedHash, FramedInputDigest;
    branches := CollectReceipts(h, accounts, run.branches, allow).value;
    parameters := BindParameters(run).value;
    document := ArtifactDocument(h, run, CombinerIdOf(run.combiner).value, parameters, branches);
  }

  // The fields of the artifact that the checks read.

  lemma DocumentBranchesField(h: Hash, run: RunManifest, id: nat, parameters: map<string, Json>, branches: seq<BoundBranch>)
    requires forall i, j :: 0 <= i < j < |branches| ==> branches[i].index < branches[j].index
    ensures DocumentBranches(ArtifactDocument(h, run, id, parameters, branches)) == BranchDocuments(h, branches)
  {
    SortKeepsSorted(branches);
    hide BranchDocuments, Sort;
  }

  lemma DocumentCombiner(h: Hash, run: RunManifest, id: nat, parameters: map<string, Json>, branches: seq<BoundBranch>)
    ensures ArtifactDocument(h, run, id, parameters, branches).Get("combiner") == Some(Str(run.combiner))
  {
    hide BranchDocuments, Sort;
  }

  lemma DocumentParameters(h: Hash, run: RunManifest, id: nat, parameters: map<string, Json>, branches: seq<BoundBranch>)
    ensures ArtifactDocument(h, run, id, parameters, branches).Get("combiner_parameters") == Some(Obj(parameters))
  {
    hide BranchDocuments, Sort;
  }

  lemma DocumentPlan(h: Hash, run: RunManifest, id: nat, parameters: map<string, Json>, branches: seq<BoundBranch>)
    ensures ArtifactDocument(h, run, id, parameters, branches).Get("aggregate_plan_cid")
            == if PlanOf(run).Some? then Some(Str(PlanOf(run).value)) else None
  {
    hide BranchDocuments, Sort, PlanOf;
  }

  lemma DocumentsTail(h: Hash, branches: seq<BoundBranch>)
    requires branches != []
    ensures BranchDocuments(h, branches)[0] == BranchDocument(h, branches[0])
    ensures BranchDocuments(h, branches)[1..] == BranchDocuments(h, branches[1..])
  {
    hide BranchDocument;
  }

  lemma {:induction false} NamesOfDocuments(h: Hash, branches: seq<BoundBranch>)
    ensures JobNames(BranchDocuments(h, branches)) == Some(JobsOf(branches))
    decreases |branches|
  {
    if branches != [] {
      DocumentsTail(h, branches);
      BoundBranchField(h, branches[0]);
      hide BranchDocument, BranchDocuments, HexField;
      NamesOfDocuments(h, branches[1..]);
      assert [branches[0].job] + JobsOf(branches[1..]) == JobsOf(branches);
    } else {
      assert BranchDocuments(h, branches) == [];
    }
  }

  /** The plan stays met when binding leaves the parameters as planned. */
  predicate ParametersKept(run: RunManifest) {
    run.combiner == "majority-vote" ==>
      "category_dictionary_size" in run.parameters && run.parameters["category_dictionary_size"] == Int(run.dictionarySize)
  }

  lemma FollowsWithOtherParameters(plan: Json, combiner: Option<Json>, planned: map<string, Json>, bound: map<string, Json>, jobs: seq<string>)
    requires FollowsPlan(plan, combiner, planned, jobs)
    ensures FollowsPlan(plan, combiner, bound, jobs) <==> bound == planned
  {
  }

  lemma BoundParameters(run: RunManifest, parameters: map<string, Json>)
    requires BindParameters(run) == Ok(parameters)
    ensures parameters == run.parameters <==> ParametersKept(run)
  {
  }

  lemma RunnerPlanAgrees(h: Hash, codec: Codec, ipfs: Ipfs, run: RunManifest, id: nat, parameters: map<string, Json>,
                         branches: seq<BoundBranch>, image: Digest)
    requires forall i, j :: 0 <= i < j < |branches| ==> branches[i].index < branches[j].index
    requires BindPlanCheck(codec, ipfs, run, JobsOf(branches), image) == None && BindParameters(run) == Ok(parameters)
    ensures RunnerPlanCheck(codec, ipfs, ArtifactDocument(h, run, id, parameters, branches))
            == if PlanOf(run) == None || ParametersKept(run) then None else Some(PlanDiffers)
  {
    DocumentBranchesField(h, run, id, parameters, branches);
    DocumentCombiner(h, run, id, parameters, branches);
    DocumentParameters(h, run, id, parameters, branches);
    DocumentPlan(h, run, id, parameters, branches);
    NamesOfDocuments(h, branches);
    BoundParameters(run, parameters);
    PlanCidIsKept(run);
    hide ArtifactDocument, JobsOf, JobNames, PlanImage, PlanJobs, BranchDocuments, DocumentBranches, BindParameters, ParametersKept, FollowsPlan, PlanOf, ReadJson;
    if PlanOf(run).Some? {
      var plan := ReadJson(codec, ipfs, PlanOf(run).value).value;
      FollowsWithOtherParameters(plan, Some(Str(run.combiner)), run.parameters, parameters, JobsOf(branches));
    }
  }

  lemma PlanCidIsKept(run: RunManifest)
    ensures PlanOf(run).Some? ==> !Falsy(Str(PlanOf(run).value))
  {
  }

  // ----- the customer and the runner

  lemma BoundBranchesParse(h: Hash, document: Json, branches: seq<BoundBranch>)
    requires Reduce(h, Unbounded, document).Ok? && DocumentBranches(document) == BranchDocuments(h, branches)
    ensures forall i :: 0 <= i < |branches| ==> Parses(h, branches[i])
  {
    hide Reduce, DocumentBranches, StrictParse, HexField, BranchDocument;
    forall i | 0 <= i < |branches| ensures Parses(h, branches[i]) {
      ReducedBranchParses(h, document, i);
      BoundBranchField(h, branches[i]);
    }
  }

  /** The accounts of the collected branches, as the runner finds them. */
  ghost predicate HeldBy(branches: seq<BoundBranch>, h: Hash, later: Accounts) {
    forall i :: 0 <= i < |branches| ==>
      && branches[i].job in later && later[branches[i].job].jobClass == BranchProof
      && later[branches[i].job].resultHash == h(branches[i].resultBytes)
  }

  lemma CollectedAreHeld(h: Hash, accounts: Accounts, later: Accounts, run: RunManifest, branches: seq<BoundBranch>, bindAllow: bool)
    requires CollectReceipts(h, accounts, run.branches, bindAllow) == Ok(branches) && SameReceipts(run, accounts, later)
    ensures HeldBy(branches, h, later)
    ensures |branches| == |run.branches| && forall i :: 0 <= i < |branches| ==> branches[i].job == run.branches[i].job
  {
    CollectedReceipts(h, accounts, run.branches, bindAllow);
    hide CollectReceipts;
  }

  lemma BranchVerdicts(h: Hash, later: Accounts, branches: seq<BoundBranch>, allow: bool)
    requires HeldBy(branches, h, later) && forall i :: 0 <= i < |branches| ==> Parses(h, branches[i])
    ensures FirstRefusal(h, later, BranchDocuments(h, branches), allow) == None
            <==> forall i :: 0 <= i < |branches| ==> Ready(later[branches[i].job], allow)
  {
    hide FirstRefusal, BranchRefusal, Ready, BranchDocument, Parses;
    NoRefusal(h, later, BranchDocuments(h, branches), allow);
    forall i | 0 <= i < |branches|
      ensures BranchRefusal(h, later, BranchDocuments(h, branches)[i], allow) == None <==> Ready(later[branches[i].job], allow)
    {
      BoundBranchAccepted(h, later, branches[i], allow);
    }
  }

  /** The runner's checks of the branches pass exactly when every branch is ready. */
  lemma RunnerBranchesAgree(h: Hash, accounts: Accounts, later: Accounts, run: RunManifest, document: Json,
                            branches: seq<BoundBranch>, bindAllow: bool, allow: bool)
    requires CollectReceipts(h, accounts, run.branches, bindAllow) == Ok(branches) && SameReceipts(run, accounts, later)
    requires Reduce(h, Unbounded, document).Ok? && DocumentBranches(document) == BranchDocuments(h, branches)
    ensures FirstRefusal(h, later, DocumentBranches(document), allow) == None <==> AllReady(run, later, allow)
  {
    hide Reduce, CollectReceipts, SameReceipts, FirstRefusal, DocumentBranches, BranchDocuments, Ready;
    CollectedAreHeld(h, accounts, later, run, branches, bindAllow);
    BoundBranchesParse(h, document, branches);
    hide Parses;
    BranchVerdicts(h, later, branches, allow);
  }

  function ChecksLeft(branches: Option<Refusal>, plan: Option<Refusal>, reduction: AggregateReduction): Result<AggregateReduction, Refusal> {
    if branches.Some? then Err(branches.value) else if plan.Some? then Err(plan.value) else Ok(reduction)
  }

  /** What is left of the runner's checks once the artifact is the one the job was opened against. */
  lemma RunnerVerdict(h: Hash, codec: Codec, ipfs: Ipfs, accounts: Accounts, job: AggregateJob, artifact: Bytes, document: Json,
                      reduction: AggregateReduction, allow: bool)
    requires ipfs(job.inputCid) == Some(artifact) && codec.dec(artifact) == Some(document) && Journal(h, codec, artifact) == Ok(reduction)
    requires job.inputBundleHash == FramedInputDigest(h, artifact) && job.expectedResultHash == ExpectedHash(h, artifact, reduction)
    ensures RunnerBinds(h, codec, ipfs, accounts, job, allow)
            == if job.requiredSoftwareDigest == ZERO_HASH then Err(ZeroSoftwareDigest)
               else ChecksLeft(FirstRefusal(h, accounts, DocumentBranches(document), allow), RunnerPlanCheck(codec, ipfs, document), reduction)
  {
    hide FirstRefusal, RunnerPlanCheck, DocumentBranches, Journal, FramedInputDigest, ExpectedHash;
  }

  lemma JournalReduces(h: Hash, codec: Codec, artifact: Bytes, document: Json)
    requires codec.dec(artifact) == Some(document) && Journal(h, codec, artifact).Ok?
    ensures Reduce(h, Unbounded, document) == Ok(Journal(h, codec, artifact).value)
  {
    hide Reduce;
  }

  /** A job that bind-aggregate opened is accepted by the runner if and only if the reducer image is not
      zero, every branch is ready in the runner's eyes, and, when a plan is pinned, binding did not add
      to the planned parameters. */
  lemma RunnerAcceptsBoundJob(h: Hash, codec: Codec, ipfs: Ipfs, cidOf: Bytes -> string, accounts: Accounts, later: Accounts,
                              run: RunManifest, image: Digest, bindAllow: bool, allow: bool)
    requires Bind(h, codec, ipfs, cidOf, accounts, run, image, bindAllow).Ok?
    requires codec.Faithful() && Increasing(run.branches) && SameReceipts(run, accounts, later)
    requires var bound := Bind(h, codec, ipfs, cidOf, accounts, run, image, bindAllow).value;
             ipfs(bound.job.inputCid) == Some(bound.artifact)
    ensures var bound := Bind(h, codec, ipfs, cidOf, accounts, run, image, bindAllow).value;
            var verdict := RunnerBinds(h, codec, ipfs, later, bound.job, allow);
            && (verdict.Ok? <==> image != ZERO_HASH && AllReady(run, later, allow) && (PlanOf(run) == None || ParametersKept(run)))
            && (image != ZERO_HASH && AllReady(run, later, allow) && PlanOf(run) != None && !ParametersKept(run) ==> verdict == Err(PlanDiffers))
  {
    hide Bind, CollectReceipts, ArtifactDocument, Reduce, FirstRefusal, RunnerPlanCheck, DocumentBranches, AllReady, ParametersKept, PlanOf, BindPlanCheck, BindParameters, CombinerIdOf, FramedInputDigest, ExpectedHash, Journal, RunnerBinds, SameReceipts, BranchDocuments, JobsOf, Increasing;
    var branches, parameters, document := BindParts(h, codec, ipfs, cidOf, accounts, run, image, bindAllow);
    var bound := Bind(h, codec, ipfs, cidOf, accounts, run, image, bindAllow).value;
    var id := CombinerIdOf(run.combiner).value;
    CollectedIncrease(h, accounts, run.branches, bindAllow, branches);
    JournalReduces(h, codec, bound.artifact, document);
    RunnerVerdict(h, codec, ipfs, later, bound.job, bound.artifact, document, Journal(h, codec, bound.artifact).value, allow);
    DocumentBranchesField(h, run, id, parameters, branches);
    RunnerBranchesAgree(h, accounts, later, run, document, branches, bindAllow, allow);
    RunnerPlanAgrees(h, codec, ipfs, run, id, parameters, branches, image);
  }

  lemma NoParametersToKeep(run: RunManifest)
    requires run.combiner == "majority-vote" && run.parameters == map[]
    ensures !ParametersKept(run)
  {
  }

  /** A majority-vote run opened with a pinned plan names no dictionary size in it, so the runner always
      refuses the job that bind-aggregate opens for it. */
  lemma MajorityVoteDepartsFromItsPlan(h: Hash, codec: Codec, ipfs: Ipfs, cidOf: Bytes -> string, accounts: Accounts, later: Accounts,
                                       run: RunManifest, image: Digest, bindAllow: bool, allow: bool)
    requires Bind(h, codec, ipfs, cidOf, accounts, run, image, bindAllow).Ok?
    requires codec.Faithful() && Increasing(run.branches) && SameReceipts(run, accounts, later)
    requires var bound := Bind(h, codec, ipfs, cidOf, accounts, run, image, bindAllow).value;
             ipfs(bound.job.inputCid) == Some(bound.artifact)
    requires run.combiner == "majority-vote" && run.parameters == map[] && PlanOf(run).Some?
    ensures RunnerBinds(h, codec, ipfs, later, Bind(h, codec, ipfs, cidOf, accounts, run, image, bindAllow).value.job, allow).Err?
  {
    hide Bind, RunnerBinds, SameReceipts, AllReady, ParametersKept, PlanOf, Increasing;
    NoParametersToKeep(run);
    RunnerAcceptsBoundJob(h, codec, ipfs, cidOf, accounts, later, run, image, bindAllow, allow);
  }

  // ----- the customer and the guest

  lemma BoundWeightFits(h: Hash, b: BoundBranch)
    ensures WeightFits(BranchDocument(h, b))
  {
  }

  lemma AcceptedHeader(h: Hash, v: Json, r: AggregateReduction)
    requires Reduce(h, Unbounded, v) == Ok(r)
    ensures ReadHeader(Unbounded, v).Ok?
    ensures var header := ReadHeader(Unbounded, v).value;
            header.branches == DocumentBranches(v) && header.trimBps == r.trimBps && header.dictionarySize == r.dictionarySize
  {
    hide ReadHeader, DocumentBranches, AddBranches, Combine, Finish, Gathered, StrictParse;
    var header, c, value := AcceptedParts(h, Unbounded, v);
    HeaderBranches(v);
    FinishCombines(h, header, c);
  }

  /** The guest reduces a bound artifact to what the customer predicted, and so commits the same journal,
      if and only if the two parameters fit its 32-bit fields. */
  lemma GuestReducesBoundArtifact(h: Hash, codec: Codec, ipfs: Ipfs, cidOf: Bytes -> string, accounts: Accounts, run: RunManifest,
                                  image: Digest, allow: bool)
    requires Bind(h, codec, ipfs, cidOf, accounts, run, image, allow).Ok?
    requires codec.Faithful() && Increasing(run.branches)
    ensures var artifact := Bind(h, codec, ipfs, cidOf, accounts, run, image, allow).value.artifact;
            && codec.dec(artifact).Some? && Journal(h, codec, artifact).Ok?
            && var r := Journal(h, codec, artifact).value;
            (Reduce(h, Guest, codec.dec(artifact).value) == Ok(r) <==> r.trimBps < U32_LIMIT && r.dictionarySize < U32_LIMIT)
  {
    hide Bind, CollectReceipts, ArtifactDocument, Reduce, DocumentBranches, Journal, BindPlanCheck, BindParameters, CombinerIdOf, BranchDocument, ReadHeader, WeightFits, Increasing, JobsOf;
    var branches, parameters, document := BindParts(h, codec, ipfs, cidOf, accounts, run, image, allow);
    var artifact := Bind(h, codec, ipfs, cidOf, accounts, run, image, allow).value.artifact;
    var id := CombinerIdOf(run.combiner).value;
    CollectedIncrease(h, accounts, run.branches, allow, branches);
    DocumentBranchesField(h, run, id, parameters, branches);
    JournalReduces(h, codec, artifact, document);
    var r := Journal(h, codec, artifact).value;
    AcceptedHeader(h, document, r);
    GuestAcceptsWhatFits(h, document, r);
    forall i | 0 <= i < |branches| ensures WeightFits(BranchDocuments(h, branches)[i]) {
      BoundWeightFits(h, branches[i]);
    }
  }

  // ----- the runner and the verifier

  /** A branch the runner accepts raises no error of the verifier's, while its account keeps its class
      and its receipt. */
  lemma AcceptedBranchVerifies(h: Hash, accounts: Accounts, later: Accounts, branch: Json, allow: bool)
    requires BranchRefusal(h, accounts, branch, allow) == None && ReceiptsKept(accounts, later)
    ensures VerifierBranchError(h, later, branch) == None
  {
    hide HexField, StrictParse, Ready;
  }

  ghost predicate ReceiptsKept(accounts: Accounts, later: Accounts) {
    forall job :: job in accounts ==>
      job in later && later[job].jobClass == accounts[job].jobClass && later[job].resultHash == accounts[job].resultHash
  }

  lemma LastBranchErrors(h: Hash, accounts: Accounts, branches: seq<Json>)
    requires branches != []
    ensures VerifierBranchErrors(h, accounts, branches) == []
            <==> VerifierBranchErrors(h, accounts, branches[..|branches| - 1]) == []
                 && VerifierBranchError(h, accounts, branches[|branches| - 1]) == None
  {
    hide VerifierBranchError;
  }

  lemma {:induction false} NoBranchErrors(h: Hash, accounts: Accounts, branches: seq<Json>)
    requires forall i :: 0 <= i < |branches| ==> VerifierBranchError(h, accounts, branches[i]) == None
    ensures VerifierBranchErrors(h, accounts, branches) == []
    decreases |branches|
  {
    hide VerifierBranchError;
    if branches != [] {
      LastBranchErrors(h, accounts, branches);
      hide VerifierBranchErrors;
      NoBranchErrors(h, accounts, branches[..|branches| - 1]);
    }
  }

  lemma AcceptedBranchesVerify(h: Hash, accounts: Accounts, later: Accounts, branches: seq<Json>, allow: bool)
    requires FirstRefusal(h, accounts, branches, allow) == None && ReceiptsKept(accounts, later)
    ensures VerifierBranchErrors(h, later, branches) == []
  {
    hide BranchRefusal, VerifierBranchError, ReceiptsKept, FirstRefusal, VerifierBranchErrors;
    NoRefusal(h, accounts, branches, allow);
    forall i | 0 <= i < |branches| ensures VerifierBranchError(h, later, branches[i]) == None {
      AcceptedBranchVerifies(h, accounts, later, branches[i], allow);
    }
    NoBranchErrors(h, later, branches);
  }

  /** What an accepting runner has established. */
  lemma RunnerParts(h: Hash, codec: Codec, ipfs: Ipfs, accounts: Accounts, job: AggregateJob, allow: bool, reduction: AggregateReduction)
    returns (artifact: Bytes)
    requires RunnerBinds(h, codec, ipfs, accounts, job, allow) == Ok(reduction)
    ensures ipfs(job.inputCid) == Some(artifact) && Journal(h, codec, artifact) == Ok(reduction) && codec.dec(artifact).Some?
    ensures FramedInputDigest(h, artifact) == job.inputBundleHash && ExpectedHash(h, artifact, reduction) == job.expectedResultHash
    ensures FirstRefusal(h, accounts, DocumentBranches(codec.dec(artifact).value), allow) == None
  {
    hide FirstRefusal, RunnerPlanCheck, DocumentBranches, Reduce, FramedInputDigest, ExpectedHash;
    artifact := ipfs(job.inputCid).value;
  }

  /** The verifier of an accepted job finds no error in a receipt exactly when it is the reduction's
      outputs, and what it attests is the hash of those outputs: the journal's output digest. */
  lemma VerifierAgreesWithRunner(h: Hash, codec: Codec, ipfs: Ipfs, accounts: Accounts, later: Accounts, job: AggregateJob,
                                 allow: bool, reduction: AggregateReduction, receipt: Receipt)
    requires RunnerBinds(h, codec, ipfs, accounts, job, allow) == Ok(reduction) && ReceiptsKept(accounts, later)
    ensures var verdict := Attest(h, codec, ipfs, later, job, receipt);
            && verdict.Ok? && verdict.value.hash == h(Outputs(reduction))
            && (verdict.value.errors == [] <==>
                  receipt.hash == h(Outputs(reduction)) && (receipt.bytes == [] || receipt.bytes == Outputs(reduction)))
  {
    hide RunnerBinds, FirstRefusal, DocumentBranches, Journal, FramedInputDigest, ExpectedHash, Outputs, VerifierBranchErrors;
    var artifact := RunnerParts(h, codec, ipfs, accounts, job, allow, reduction);
    AcceptedBranchesVerify(h, accounts, later, DocumentBranches(codec.dec(artifact).value), allow);
  }

  /** From binding to attestation: when the runner accepts the bound job and submits the outputs it
      reduced, the verifier reports nothing and attests the hash of that same receipt. */
  lemma SubmittedReceiptIsAttested(h: Hash, codec: Codec, ipfs: Ipfs, accounts: Accounts, later: Accounts, job: AggregateJob,
                                   allow: bool, reduction: AggregateReduction)
    requires RunnerBinds(h, codec, ipfs, accounts, job, allow) == Ok(reduction) && ReceiptsKept(accounts, later)
    ensures var receipt := Receipt(Outputs(reduction), h(Outputs(reduction)));
            Attest(h, codec, ipfs, later, job, receipt) == Ok(Attestation(receipt.hash, []))
  {
    var receipt := Receipt(Outputs(reduction), h(Outputs(reduction)));
    VerifierAgreesWithRunner(h, codec, ipfs, accounts, later, job, allow, reduction, receipt);
    hide RunnerBinds, Attest, ReceiptsKept, Outputs;
  }

  /** End to end for a scalar combiner over settled branches and a non-zero image: the runner accepts the
      job bind-aggregate opens, and the verifier finds no error in the receipt the runner submits and
      attests its hash. */
  lemma BoundScalarRunIsAttested(h: Hash, codec: Codec, ipfs: Ipfs, cidOf: Bytes -> string, accounts: Accounts, later: Accounts, last: Accounts,
                                 run: RunManifest, image: Digest, bindAllow: bool, allow: bool)
    returns (reduction: AggregateReduction)
    requires Bind(h, codec, ipfs, cidOf, accounts, run, image, bindAllow).Ok?
    requires codec.Faithful() && Increasing(run.branches) && SameReceipts(run, accounts, later) && ReceiptsKept(later, last)
    requires var bound := Bind(h, codec, ipfs, cidOf, accounts, run, image, bindAllow).value;
             ipfs(bound.job.inputCid) == Some(bound.artifact)
    requires run.combiner != "majority-vote" && image != ZERO_HASH && AllReady(run, later, allow)
    ensures var job := Bind(h, codec, ipfs, cidOf, accounts, run, image, bindAllow).value.job;
            var receipt := Receipt(Outputs(reduction), h(Outputs(reduction)));
            && RunnerBinds(h, codec, ipfs, later, job, allow) == Ok(reduction)
            && Attest(h, codec, ipfs, last, job, receipt) == Ok(Attestation(receipt.hash, []))
  {
    assert ParametersKept(run);
    hide Bind, RunnerBinds, Attest, SameReceipts, ReceiptsKept, AllReady, Outputs, Increasing, PlanOf, ParametersKept;
    RunnerAcceptsBoundJob(h, codec, ipfs, cidOf, accounts, later, run, image, bindAllow, allow);
    var job := Bind(h, codec, ipfs, cidOf, accounts, run, image, bindAllow).value.job;
    reduction := RunnerBinds(h, codec, ipfs, later, job, allow).value;
    SubmittedReceiptIsAttested(h, codec, ipfs, later, last, job, allow, reduction);
  }

  /** The runner accepts exactly one execution for a job it bound, and its journal hash is the hash of
      what it reports: the input digest and the committed outputs. */
  lemma OneExecutionSettles(h: Hash, codec: Codec, ipfs: Ipfs, accounts: Accounts, job: AggregateJob, allow: bool,
                            reduction: AggregateReduction, artifact: Bytes, execution: Execution)
    requires RunnerBinds(h, codec, ipfs, accounts, job, allow) == Ok(reduction)
    requires ipfs(job.inputCid) == Some(artifact)
    ensures ExecutionSettles(h, execution, job, artifact, reduction)
            <==> execution == Execution(Outputs(reduction), job.inputBundleHash, job.requiredSoftwareDigest, job.expectedResultHash)
    ensures ExecutionSettles(h, execution, job, artifact, reduction)
            ==> execution.journalHash == h(execution.inputDigest + execution.committedOutputs)
  {
    var found := RunnerParts(h, codec, ipfs, accounts, job, allow, reduction);
    hide RunnerBinds, Outputs, FramedInputDigest, FirstRefusal, Journal, DocumentBranches;
  }
}

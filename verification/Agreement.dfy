/** Three parties over one committed artifact: the customer who binds it, the aggregator runner who
    reduces it again before claiming, and the verifier who attests. */
module Agreement {
  import opened Results
  import opened ByteStrings
  import opened Json
  import opened Sorting
  import opened Mfb2Parsers
  import opened Reduction
  import opened CommittedOutputs
  import opened PredictRun
  import Hex

  const ZERO_HASH: Digest := [
    0, 0, 0, 0, 0, 0, 0, 0, 0, 0, 0, 0, 0, 0, 0, 0,
    0, 0, 0, 0, 0, 0, 0, 0, 0, 0, 0, 0, 0, 0, 0, 0]

  /** The canonical JSON rule and the parser that reads it back. */
  datatype Codec = Codec(enc: Json -> Bytes, dec: Bytes -> Option<Json>) {
    ghost predicate Faithful() {
      forall v :: dec(enc(v)) == Some(v)
    }
  }

  /** Content addressing: what a CID names never changes. */
  type Ipfs = string -> Option<Bytes>

  datatype JobClass = BranchProof | AggregateProof | OtherClass

  /** What the three parties read of a branch job account. */
  datatype Account = Account(jobClass: JobClass, status: JobStatus, attested: bool, outputCid: string, resultBytes: Bytes, resultHash: Bytes)

  type Accounts = map<string, Account>

  datatype BranchJob = BranchJob(index: nat, job: string)

  /** The parts of the run manifest that binding reads. */
  datatype RunManifest = RunManifest(
    parentRun: string, parentManifestCid: string, outputSchemaHash: string, combiner: string,
    parameters: map<string, Json>, branches: seq<BranchJob>, planCid: Option<string>, dictionarySize: nat)

  /** `aggregate_plan_cid`, if the manifest has one that is not empty. */
  function PlanOf(run: RunManifest): Option<string> {
    if run.planCid == Some("") then None else run.planCid
  }

  datatype BoundBranch = BoundBranch(index: nat, job: string, outputCid: string, resultBytes: Bytes)

  datatype Refusal =
    | JobMissing
    | NotBranchProof
    | NotReady
    | NoReceiptBytes
    | ReceiptHashDiffers
    | PlanUnreadable
    | PlanDiffers
    | NoDictionary
    | UnknownCombiner
    | ArtifactUnreadable
    | NotJson
    | ReducerRefuses(error: AggregateError)
    | InputDigestDiffers
    | JournalHashDiffers
    | ZeroSoftwareDigest
    | BadBranch
    | OutputHashDiffers
    | ReceiptBytesDiffer

  // ----- bind-aggregate: collecting the receipts

  predicate Ready(account: Account, allowCompleted: bool) {
    account.status == Settled || (allowCompleted && account.status == Completed && account.attested)
  }

  function CollectReceipt(h: Hash, accounts: Accounts, branch: BranchJob, allowCompleted: bool): Result<BoundBranch, Refusal> {
    if branch.job !in accounts then Err(JobMissing)
    else
      var account := accounts[branch.job];
      if !Ready(account, allowCompleted) then Err(NotReady)
      else if account.resultBytes == [] then Err(NoReceiptBytes)
      else if h(account.resultBytes) != account.resultHash then Err(ReceiptHashDiffers)
      else Ok(BoundBranch(branch.index, branch.job, account.outputCid, account.resultBytes))
  }

  function CollectReceipts(h: Hash, accounts: Accounts, branches: seq<BranchJob>, allowCompleted: bool): Result<seq<BoundBranch>, Refusal> {
    if branches == [] then Ok([])
    else
      var first :- CollectReceipt(h, accounts, branches[0], allowCompleted);
      var rest :- CollectReceipts(h, accounts, branches[1..], allowCompleted);
      Ok([first] + rest)
  }

  // ----- the pinned plan

  predicate Falsy(v: Json) {
    v == Null || v == Bool(false) || v == Int(0) || v == Str("") || v == Arr([]) || v == Obj(map[])
  }

  function PlanParameters(plan: Json): Option<map<string, Json>> {
    match plan.Get("combiner_parameters")
    case None => Some(map[])
    case Some(v) => if Falsy(v) then Some(map[]) else if v.Obj? then Some(v.fields) else None
  }

  function JobNames(items: seq<Json>): Option<seq<string>> {
    if items == [] then Some([])
    else
      match items[0].Get("job")
      case None => None
      case Some(name) =>
        if !name.Str? then None
        else
          match JobNames(items[1..])
          case None => None
          case Some(rest) => Some([name.s] + rest)
  }

  function PlanJobs(plan: Json): Option<seq<string>> {
    match plan.Get("branch_jobs")
    case None => Some([])
    case Some(v) => if Falsy(v) then Some([]) else if v.Arr? then JobNames(v.items) else None
  }

  function PlanImage(plan: Json): Option<string> {
    match plan.Get("bonsol")
    case None => Some("")
    case Some(bonsol) =>
      if Falsy(bonsol) then Some("")
      else if !bonsol.Obj? then None
      else
        match bonsol.Get("image_id")
        case None => Some("")
        case Some(image) => if image.Str? then Some(image.s) else None
  }

  /** The comparison both sides make: combiner, parameters, and the branch jobs if the plan names any. */
  predicate FollowsPlan(plan: Json, combiner: Option<Json>, parameters: map<string, Json>, jobs: seq<string>) {
    && plan.Obj? && plan.Get("combiner") == combiner
    && PlanParameters(plan) == Some(parameters)
    && PlanJobs(plan).Some? && (PlanJobs(plan).value == [] || PlanJobs(plan).value == jobs)
  }

  function JobsOf(branches: seq<BoundBranch>): (r: seq<string>)
    ensures |r| == |branches|
  {
    seq(|branches|, i requires 0 <= i < |branches| => branches[i].job)
  }

  function ReadJson(codec: Codec, ipfs: Ipfs, cid: string): Option<Json> {
    match ipfs(cid)
    case None => None
    case Some(bytes) => codec.dec(bytes)
  }

  /** `_check_against_aggregate_plan`: also compares the reducer image, if the plan names one. */
  function BindPlanCheck(codec: Codec, ipfs: Ipfs, run: RunManifest, jobs: seq<string>, image: Digest): Option<Refusal> {
    if PlanOf(run).None? then None
    else
      match ReadJson(codec, ipfs, PlanOf(run).value)
      case None => Some(PlanUnreadable)
      case Some(plan) =>
        if !FollowsPlan(plan, Some(Str(run.combiner)), run.parameters, jobs) then Some(PlanDiffers)
        else if PlanImage(plan) != Some("") && PlanImage(plan) != Some(Hex.HexText(image)) then Some(PlanDiffers)
        else None
  }

  // ----- the artifact

  function BranchDocument(h: Hash, b: BoundBranch): Json {
    Obj(map[
      "branch_index" := Int(b.index), "job" := Str(b.job), "output_cid" := Str(b.outputCid),
      "result_bytes" := Str(Hex.HexText(b.resultBytes)), "result_hash" := Str(Hex.HexText(h(b.resultBytes))), "weight" := Int(1)])
  }

  predicate ByIndex(a: BoundBranch, b: BoundBranch) { a.index <= b.index }

  function BranchDocuments(h: Hash, branches: seq<BoundBranch>): (r: seq<Json>)
    ensures |r| == |branches| && forall i :: 0 <= i < |r| ==> r[i] == BranchDocument(h, branches[i])
  {
    seq(|branches|, i requires 0 <= i < |branches| => BranchDocument(h, branches[i]))
  }

  function CombinerIdOf(name: string): Option<nat> {
    if name == "weighted-mean" then Some(WEIGHTED_MEAN)
    else if name == "trimmed-mean" then Some(TRIMMED_MEAN)
    else if name == "majority-vote" then Some(MAJORITY_VOTE)
    else None
  }

  /** `build_aggregate_artifact`, before it is written out. */
  function ArtifactDocument(h: Hash, run: RunManifest, id: nat, parameters: map<string, Json>, branches: seq<BoundBranch>): Json {
    var fields := map[
      "schema" := Str("MFA3"), "schema_version" := Int(3), "parent_run" := Str(run.parentRun),
      "parent_manifest_cid" := Str(run.parentManifestCid), "output_schema_hash" := Str(run.outputSchemaHash),
      "combiner" := Str(run.combiner), "combiner_id" := Int(id), "combiner_parameters" := Obj(parameters),
      "branches" := Arr(BranchDocuments(h, Sort(branches, ByIndex)))];
    if PlanOf(run).None? then Obj(fields) else Obj(fields["aggregate_plan_cid" := Str(PlanOf(run).value)])
  }

  /** Binding adds the dictionary size to the parameters of a majority-vote run. */
  function BindParameters(run: RunManifest): Result<map<string, Json>, Refusal> {
    if run.combiner != "majority-vote" then Ok(run.parameters)
    else if run.dictionarySize == 0 then Err(NoDictionary)
    else Ok(run.parameters["category_dictionary_size" := Int(run.dictionarySize)])
  }

  /** What the aggregate job account carries once it is open. */
  datatype AggregateJob = AggregateJob(inputCid: string, inputBundleHash: Bytes, expectedResultHash: Bytes, requiredSoftwareDigest: Bytes)

  /** `aggregate_journal`: the input digest and the reduction. */
  function Journal(h: Hash, codec: Codec, artifact: Bytes): Result<AggregateReduction, Refusal> {
    match codec.dec(artifact)
    case None => Err(NotJson)
    case Some(v) =>
      match Reduce(h, Unbounded, v)
      case Err(e) => Err(ReducerRefuses(e))
      case Ok(reduction) => Ok(reduction)
  }

  function ExpectedHash(h: Hash, artifact: Bytes, reduction: AggregateReduction): Digest {
    JournalHash(h, FramedInputDigest(h, artifact), Outputs(reduction))
  }

  /** The job that binding opens, and the artifact it pins. */
  datatype Bound = Bound(job: AggregateJob, artifact: Bytes)

  function FixHashes(h: Hash, codec: Codec, cidOf: Bytes -> string, artifact: Bytes, image: Digest): Result<Bound, Refusal> {
    var reduction :- Journal(h, codec, artifact);
    Ok(Bound(AggregateJob(cidOf(artifact), FramedInputDigest(h, artifact), ExpectedHash(h, artifact, reduction), image), artifact))
  }

  /** `predict bind-aggregate` up to the point where the job's hashes are fixed. */
  function Bind(h: Hash, codec: Codec, ipfs: Ipfs, cidOf: Bytes -> string, accounts: Accounts, run: RunManifest,
                image: Digest, allowCompleted: bool): Result<Bound, Refusal>
  {
    var branches :- CollectReceipts(h, accounts, run.branches, allowCompleted);
    match BindPlanCheck(codec, ipfs, run, JobsOf(branches), image)
    case Some(refusal) => Err(refusal)
    case None =>
      var parameters :- BindParameters(run);
      match CombinerIdOf(run.combiner)
      case None => Err(UnknownCombiner)
      case Some(id) =>
        FixHashes(h, codec, cidOf, codec.enc(ArtifactDocument(h, run, id, parameters, branches)), image)
  }

  // ----- the aggregator runner

  /** One branch of `_check_branches_against_chain`. */
  function BranchRefusal(h: Hash, accounts: Accounts, branch: Json, allowCompleted: bool): Option<Refusal> {
    match branch.Get("job")
    case None => Some(BadBranch)
    case Some(job) =>
      if !job.Str? then Some(BadBranch)
      else if job.s !in accounts then Some(JobMissing)
      else
        var account := accounts[job.s];
        if account.jobClass != BranchProof then Some(NotBranchProof)
        else if !Ready(account, allowCompleted) then Some(NotReady)
        else ReceiptRefusal(h, account, branch)
  }

  function ReceiptRefusal(h: Hash, account: Account, branch: Json): Option<Refusal> {
    match HexField(Unbounded, branch, "result_bytes")
    case Err(_) => Some(BadBranch)
    case Ok(bytes) =>
      match StrictParse(h, bytes)
      case Err(_) => Some(BadBranch)
      case Ok(receipt) => if receipt.resultHash != account.resultHash then Some(ReceiptHashDiffers) else None
  }

  function FirstRefusal(h: Hash, accounts: Accounts, branches: seq<Json>, allowCompleted: bool): Option<Refusal> {
    if branches == [] then None
    else if BranchRefusal(h, accounts, branches[0], allowCompleted).Some? then BranchRefusal(h, accounts, branches[0], allowCompleted)
    else FirstRefusal(h, accounts, branches[1..], allowCompleted)
  }

  function DocumentBranches(document: Json): seq<Json> {
    match document.Get("branches")
    case None => []
    case Some(v) => if v.Arr? then v.items else []
  }

  /** `_check_artifact_against_plan`. */
  function RunnerPlanCheck(codec: Codec, ipfs: Ipfs, document: Json): Option<Refusal> {
    match document.Get("aggregate_plan_cid")
    case None => None
    case Some(cid) =>
      if Falsy(cid) then None
      else if !cid.Str? then Some(PlanUnreadable)
      else
        match ReadJson(codec, ipfs, cid.s)
        case None => Some(PlanUnreadable)
        case Some(plan) =>
          var parameters := match document.Get("combiner_parameters") case Some(Obj(fields)) => fields case _ => map[];
          match JobNames(DocumentBranches(document))
          case None => Some(BadBranch)
          case Some(jobs) => if FollowsPlan(plan, document.Get("combiner"), parameters, jobs) then None else Some(PlanDiffers)
  }

  /** The last two checks: the branches against the chain, the artifact against its plan. */
  function DocumentChecks(h: Hash, codec: Codec, ipfs: Ipfs, accounts: Accounts, document: Json, allowCompleted: bool): Option<Refusal> {
    var branches := FirstRefusal(h, accounts, DocumentBranches(document), allowCompleted);
    if branches.Some? then branches else RunnerPlanCheck(codec, ipfs, document)
  }

  /** Whether the reduction is the one the job can settle. */
  function JobRefusal(h: Hash, artifact: Bytes, reduction: AggregateReduction, job: AggregateJob): Option<Refusal> {
    if ExpectedHash(h, artifact, reduction) != job.expectedResultHash then Some(JournalHashDiffers)
    else if job.requiredSoftwareDigest == ZERO_HASH then Some(ZeroSoftwareDigest)
    else None
  }

  /** `_bind_committed_artifact`: the reduction of the committed artifact, or why the job is refused. */
  function RunnerBinds(h: Hash, codec: Codec, ipfs: Ipfs, accounts: Accounts, job: AggregateJob, allowCompleted: bool): Result<AggregateReduction, Refusal> {
    match ipfs(job.inputCid)
    case None => Err(ArtifactUnreadable)
    case Some(artifact) =>
      if FramedInputDigest(h, artifact) != job.inputBundleHash then Err(InputDigestDiffers)
      else
        var reduction :- Journal(h, codec, artifact);
        match JobRefusal(h, artifact, reduction, job)
        case Some(refusal) => Err(refusal)
        case None =>
          match codec.dec(artifact)
          case None => Err(NotJson)
          case Some(document) =>
            match DocumentChecks(h, codec, ipfs, accounts, document, allowCompleted)
            case Some(refusal) => Err(refusal)
            case None => Ok(reduction)
  }

  /** What the proving hook reports back. */
  datatype Execution = Execution(committedOutputs: Bytes, inputDigest: Bytes, imageId: Bytes, journalHash: Bytes)

  /** `check_binding_against_job`. */
  predicate ExecutionSettles(h: Hash, execution: Execution, job: AggregateJob, artifact: Bytes, reduction: AggregateReduction) {
    && execution.committedOutputs == Outputs(reduction)
    && execution.inputDigest == FramedInputDigest(h, artifact)
    && execution.inputDigest == job.inputBundleHash
    && execution.imageId == job.requiredSoftwareDigest
    && execution.journalHash == job.expectedResultHash
  }

  // ----- the verifier

  /** The receipt on the aggregate job account. */
  datatype Receipt = Receipt(bytes: Bytes, hash: Bytes)

  function VerifierBranchError(h: Hash, accounts: Accounts, branch: Json): Option<Refusal> {
    match branch.Get("job")
    case None => Some(BadBranch)
    case Some(job) =>
      if !job.Str? then Some(BadBranch)
      else if job.s !in accounts then Some(JobMissing)
      else if accounts[job.s].jobClass != BranchProof then Some(NotBranchProof)
      else ReceiptRefusal(h, accounts[job.s], branch)
  }

  function VerifierBranchErrors(h: Hash, accounts: Accounts, branches: seq<Json>): seq<Refusal> {
    if branches == [] then []
    else
      var last := VerifierBranchError(h, accounts, branches[|branches| - 1]);
      VerifierBranchErrors(h, accounts, branches[..|branches| - 1]) + if last.Some? then [last.value] else []
  }

  /** The attested hash and the errors reported beside it. */
  datatype Attestation = Attestation(hash: Digest, errors: seq<Refusal>)

  /** `_verify_and_attest_aggregate`. */
  function Attest(h: Hash, codec: Codec, ipfs: Ipfs, accounts: Accounts, job: AggregateJob, receipt: Receipt): Result<Attestation, Refusal> {
    match ipfs(job.inputCid)
    case None => Err(ArtifactUnreadable)
    case Some(artifact) =>
      var reduction :- Journal(h, codec, artifact);
      var outputs := Outputs(reduction);
      Ok(Attestation(h(outputs),
        (if FramedInputDigest(h, artifact) != job.inputBundleHash then [InputDigestDiffers] else [])
        + (if ExpectedHash(h, artifact, reduction) != job.expectedResultHash then [JournalHashDiffers] else [])
        + (if h(outputs) != receipt.hash then [OutputHashDiffers] else [])
        + (if receipt.bytes != [] && receipt.bytes != outputs then [ReceiptBytesDiffer] else [])
        + VerifierBranchErrors(h, accounts, DocumentBranches(codec.dec(artifact).value))))
  }

  // ----- the loops

  /** `_collect_branch_receipts`. */
  method CollectBranchReceipts(h: Hash, accounts: Accounts, branches: seq<BranchJob>, allowCompleted: bool)
    returns (r: Result<seq<BoundBranch>, Refusal>)
    ensures r == CollectReceipts(h, accounts, branches, allowCompleted)
  {
    var collected: seq<BoundBranch> := [];
    assert branches[0..] == branches;
    assert forall rest: seq<BoundBranch> :: [] + rest == rest;
    for i := 0 to |branches|
      invariant CollectReceipts(h, accounts, branches, allowCompleted)
             == match CollectReceipts(h, accounts, branches[i..], allowCompleted)
                case Err(e) => Err(e)
                case Ok(rest) => Ok(collected + rest)
    {
      var bound := CollectReceipt(h, accounts, branches[i], allowCompleted);
      assert branches[i..][1..] == branches[i + 1..];
      if bound.Err? {
        return Err(bound.error);
      }
      ghost var rest := CollectReceipts(h, accounts, branches[i + 1..], allowCompleted);
      assert rest.Ok? ==> collected + ([bound.value] + rest.value) == (collected + [bound.value]) + rest.value;
      collected := collected + [bound.value];
    }
    assert branches[|branches|..] == [] && collected + [] == collected;
    return Ok(collected);
  }

  /** `_check_branches_against_chain`. */
  method CheckBranchesAgainstChain(h: Hash, accounts: Accounts, branches: seq<Json>, allowCompleted: bool) returns (r: Option<Refusal>)
    ensures r == FirstRefusal(h, accounts, branches, allowCompleted)
  {
    assert branches[0..] == branches;
    for i := 0 to |branches|
      invariant FirstRefusal(h, accounts, branches, allowCompleted) == FirstRefusal(h, accounts, branches[i..], allowCompleted)
    {
      assert branches[i..][1..] == branches[i + 1..];
      var refusal := BranchRefusal(h, accounts, branches[i], allowCompleted);
      if refusal.Some? {
        return refusal;
      }
    }
    assert branches[|branches|..] == [];
    return None;
  }

  /** `_aggregate_branches_match_chain`. */
  method AggregateBranchesMatchChain(h: Hash, accounts: Accounts, branches: seq<Json>) returns (errors: seq<Refusal>)
    ensures errors == VerifierBranchErrors(h, accounts, branches)
  {
    errors := [];
    for i := 0 to |branches|
      invariant errors == VerifierBranchErrors(h, accounts, branches[..i])
    {
      assert branches[..i + 1][..i] == branches[..i];
      var error := VerifierBranchError(h, accounts, branches[i]);
      if error.Some? {
        errors := errors + [error.value];
      }
    }
    assert branches[..|branches|] == branches;
  }
}

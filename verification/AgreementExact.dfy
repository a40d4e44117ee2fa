/** Exactly what each party accepts, and what it says when it does not, with every condition written out. */
module AgreementExact {
  import opened Results
  import opened ByteStrings
  import opened Json
  import opened Sorting
  import opened Mfb2Parsers
  import opened Reduction
  import opened ReductionFacts
  import opened ReductionMeaning
  import opened CommittedOutputs
  import opened PredictRun
  import opened Agreement
  import opened AgreementTheorems
  import Hex

  // ----- the customer: collecting the receipts

  /** The branch settled, or under the flag was completed and attested. */
  predicate Done(account: Account, allowCompleted: bool) {
    account.status == Settled || (allowCompleted && account.status == Completed && account.attested)
  }

  /** A branch job that can be bound. */
  predicate Collectable(h: Hash, accounts: Accounts, job: string, allowCompleted: bool) {
    && job in accounts && Done(accounts[job], allowCompleted)
    && accounts[job].resultBytes != [] && h(accounts[job].resultBytes) == accounts[job].resultHash
  }

  /** Why a branch job cannot be bound: the first of the four conditions it fails. */
  ghost predicate Uncollectable(h: Hash, accounts: Accounts, job: string, allowCompleted: bool, e: Refusal) {
    match e
    case JobMissing => job !in accounts
    case NotReady => job in accounts && !Done(accounts[job], allowCompleted)
    case NoReceiptBytes => job in accounts && Done(accounts[job], allowCompleted) && accounts[job].resultBytes == []
    case ReceiptHashDiffers =>
      && job in accounts && Done(accounts[job], allowCompleted)
      && accounts[job].resultBytes != [] && h(accounts[job].resultBytes) != accounts[job].resultHash
    case _ => false
  }

  /** The branches are collected if and only if each can be bound; otherwise the first that cannot says why. */
  lemma {:induction false} CollectsExactly(h: Hash, accounts: Accounts, branches: seq<BranchJob>, allow: bool)
    ensures var r := CollectReceipts(h, accounts, branches, allow);
            && (r.Ok? <==> forall i :: 0 <= i < |branches| ==> Collectable(h, accounts, branches[i].job, allow))
            && (r.Err? ==> exists k :: 0 <= k < |branches| && Uncollectable(h, accounts, branches[k].job, allow, r.error)
                             && forall i :: 0 <= i < k ==> Collectable(h, accounts, branches[i].job, allow))
  {
    if branches != [] {
      var rest := branches[1..];
      CollectsExactly(h, accounts, rest, allow);
      var r, tail := CollectReceipts(h, accounts, branches, allow), CollectReceipts(h, accounts, rest, allow);
      assert forall i :: 0 < i < |branches| ==> branches[i] == rest[i - 1];
      if CollectReceipt(h, accounts, branches[0], allow).Ok? && tail.Err? {
        var k :| 0 <= k < |rest| && Uncollectable(h, accounts, rest[k].job, allow, tail.error)
                 && forall i :: 0 <= i < k ==> Collectable(h, accounts, rest[i].job, allow);
        assert Uncollectable(h, accounts, branches[k + 1].job, allow, r.error);
      } else if r.Err? {
        assert Uncollectable(h, accounts, branches[0].job, allow, r.error);
      }
    }
  }

  // ----- the runner and the verifier: a branch of the artifact against the chain

  /** The job a branch of the artifact names. */
  function JobAt(branch: Json): Option<string> {
    TextAt(branch, "job")
  }

  /** The receipt of the branch is the one its job has on chain. */
  predicate OnChain(h: Hash, account: Account, branch: Json) {
    BytesAt(branch, "result_bytes").Some? && h(BytesAt(branch, "result_bytes").value) == account.resultHash
  }

  /** A branch the runner reduces over. */
  predicate RunnerAdmits(h: Hash, accounts: Accounts, branch: Json, allow: bool) {
    && JobAt(branch).Some? && JobAt(branch).value in accounts
    && var account := accounts[JobAt(branch).value];
    && account.jobClass == BranchProof && Done(account, allow)
    && ReceiptAt(h, branch).Some? && OnChain(h, account, branch)
  }

  /** Why the runner refuses a branch: the first condition it fails. */
  ghost predicate RunnerFaults(h: Hash, accounts: Accounts, branch: Json, allow: bool, e: Refusal) {
    match JobAt(branch)
    case None => e == BadBranch
    case Some(job) =>
      if job !in accounts then e == JobMissing
      else if accounts[job].jobClass != BranchProof then e == NotBranchProof
      else if !Done(accounts[job], allow) then e == NotReady
      else if ReceiptAt(h, branch).None? then e == BadBranch
      else e == ReceiptHashDiffers && !OnChain(h, accounts[job], branch)
  }

  lemma ReceiptVerdict(h: Hash, account: Account, branch: Json)
    ensures ReceiptRefusal(h, account, branch)
            == if ReceiptAt(h, branch).None? then Some(BadBranch)
               else if OnChain(h, account, branch) then None else Some(ReceiptHashDiffers)
  {
    BytesRead(branch, "result_bytes");
    if ReceiptAt(h, branch).Some? {
      ParsedReceiptInRange(h, BytesAt(branch, "result_bytes").value);
    }
    hide HexField, StrictParse, BytesAt;
  }

  lemma RunnerVerdictOn(h: Hash, accounts: Accounts, branch: Json, allow: bool)
    ensures var r := BranchRefusal(h, accounts, branch, allow);
            && (r == None <==> RunnerAdmits(h, accounts, branch, allow))
            && (r.Some? ==> RunnerFaults(h, accounts, branch, allow, r.value))
  {
    if JobAt(branch).Some? && JobAt(branch).value in accounts {
      ReceiptVerdict(h, accounts[JobAt(branch).value], branch);
    }
    hide ReceiptRefusal, ReceiptAt, OnChain;
  }

  /** The runner's branch check passes if and only if it admits every branch; otherwise the first it does not
      admit says why. */
  lemma {:induction false} RunnerChecksExactly(h: Hash, accounts: Accounts, branches: seq<Json>, allow: bool)
    ensures var r := FirstRefusal(h, accounts, branches, allow);
            && (r == None <==> forall i :: 0 <= i < |branches| ==> RunnerAdmits(h, accounts, branches[i], allow))
            && (r.Some? ==> exists k :: 0 <= k < |branches| && RunnerFaults(h, accounts, branches[k], allow, r.value)
                              && forall i :: 0 <= i < k ==> RunnerAdmits(h, accounts, branches[i], allow))
  {
    if branches != [] {
      RunnerVerdictOn(h, accounts, branches[0], allow);
      hide BranchRefusal, RunnerAdmits, RunnerFaults;
      var rest := branches[1..];
      RunnerChecksExactly(h, accounts, rest, allow);
      var r := FirstRefusal(h, accounts, branches, allow);
      assert forall i :: 0 < i < |branches| ==> branches[i] == rest[i - 1];
      if BranchRefusal(h, accounts, branches[0], allow) == None && r.Some? {
        var k :| 0 <= k < |rest| && RunnerFaults(h, accounts, rest[k], allow, r.value)
                 && forall i :: 0 <= i < k ==> RunnerAdmits(h, accounts, rest[i], allow);
        assert RunnerFaults(h, accounts, branches[k + 1], allow, r.value);
      } else if r.Some? {
        assert RunnerFaults(h, accounts, branches[0], allow, r.value);
      }
    }
  }

  // ----- the verifier

  /** What the verifier has to find of a branch whose receipt parses. */
  predicate VerifierAccepts(h: Hash, accounts: Accounts, branch: Json) {
    && JobAt(branch).Some? && JobAt(branch).value in accounts
    && accounts[JobAt(branch).value].jobClass == BranchProof && OnChain(h, accounts[JobAt(branch).value], branch)
  }

  ghost predicate VerifierFaults(h: Hash, accounts: Accounts, branch: Json, e: Refusal) {
    match JobAt(branch)
    case None => e == BadBranch
    case Some(job) =>
      if job !in accounts then e == JobMissing
      else if accounts[job].jobClass != BranchProof then e == NotBranchProof
      else e == ReceiptHashDiffers && !OnChain(h, accounts[job], branch)
  }

  lemma VerifierVerdictOn(h: Hash, accounts: Accounts, branch: Json)
    requires ReceiptAt(h, branch).Some?
    ensures var r := VerifierBranchError(h, accounts, branch);
            && (r == None <==> VerifierAccepts(h, accounts, branch))
            && (r.Some? ==> VerifierFaults(h, accounts, branch, r.value))
  {
    if JobAt(branch).Some? && JobAt(branch).value in accounts {
      ReceiptVerdict(h, accounts[JobAt(branch).value], branch);
    }
    hide ReceiptRefusal, ReceiptAt, OnChain;
  }

  /** `at` lists in order the branches the verifier does not accept, and `errors` what each of them fails. */
  ghost predicate Reports(h: Hash, accounts: Accounts, branches: seq<Json>, errors: seq<Refusal>, at: seq<nat>) {
    && |at| == |errors| && (forall k, l :: 0 <= k < l < |at| ==> at[k] < at[l])
    && (forall k :: 0 <= k < |at| ==> at[k] < |branches| && VerifierFaults(h, accounts, branches[at[k]], errors[k]))
    && (forall i: nat :: i < |branches| ==> (i in at <==> !VerifierAccepts(h, accounts, branches[i])))
  }

  /** Over branches whose receipts parse, the verifier reports one error for each branch it does not accept, that
      branch's own, in the order of the branches. */
  lemma {:induction false} VerifierReportsExactly(h: Hash, accounts: Accounts, branches: seq<Json>) returns (at: seq<nat>)
    requires forall i :: 0 <= i < |branches| ==> ReceiptAt(h, branches[i]).Some?
    ensures Reports(h, accounts, branches, VerifierBranchErrors(h, accounts, branches), at)
    ensures VerifierBranchErrors(h, accounts, branches) == [] <==>
              forall i :: 0 <= i < |branches| ==> VerifierAccepts(h, accounts, branches[i])
    decreases |branches|
  {
    if branches == [] {
      at := [];
    } else {
      var n := |branches| - 1;
      var before := branches[..n];
      VerifierVerdictOn(h, accounts, branches[n]);
      hide ReceiptAt, VerifierBranchError, VerifierAccepts, VerifierFaults;
      var earlier := VerifierReportsExactly(h, accounts, before);
      at := earlier + if VerifierBranchError(h, accounts, branches[n]).Some? then [n] else [];
      ReportsOneMore(h, accounts, branches, VerifierBranchErrors(h, accounts, before), earlier, VerifierBranchError(h, accounts, branches[n]));
    }
    ReportsNothing(h, accounts, branches, VerifierBranchErrors(h, accounts, branches), at);
  }

  lemma ReportsOneMore(h: Hash, accounts: Accounts, branches: seq<Json>, errors: seq<Refusal>, at: seq<nat>, last: Option<Refusal>)
    requires branches != [] && Reports(h, accounts, branches[..|branches| - 1], errors, at)
    requires last == None <==> VerifierAccepts(h, accounts, branches[|branches| - 1])
    requires last.Some? ==> VerifierFaults(h, accounts, branches[|branches| - 1], last.value)
    ensures var n := |branches| - 1;
            Reports(h, accounts, branches, errors + (if last.Some? then [last.value] else []), at + if last.Some? then [n] else [])
  {
    hide VerifierAccepts, VerifierFaults;
    assert forall i :: 0 <= i < |branches| - 1 ==> branches[..|branches| - 1][i] == branches[i];
  }

  lemma ReportsNothing(h: Hash, accounts: Accounts, branches: seq<Json>, errors: seq<Refusal>, at: seq<nat>)
    requires Reports(h, accounts, branches, errors, at)
    ensures errors == [] <==> forall i :: 0 <= i < |branches| ==> VerifierAccepts(h, accounts, branches[i])
  {
    hide VerifierAccepts, VerifierFaults;
    if errors != [] {
      assert at[0] in at;
    }
  }

  /** The digest of the framed artifact: its length in eight bytes, then the artifact. */
  function InputDigest(h: Hash, artifact: Bytes): Digest {
    h(LittleEndian(|artifact|, 8) + artifact)
  }

  /** The journal hash: of the input digest and the committed outputs. */
  function JournalOf(h: Hash, artifact: Bytes, r: AggregateReduction): Digest {
    h(InputDigest(h, artifact) + Outputs(r))
  }

  lemma DigestsAre(h: Hash, artifact: Bytes, r: AggregateReduction)
    ensures FramedInputDigest(h, artifact) == InputDigest(h, artifact) && ExpectedHash(h, artifact, r) == JournalOf(h, artifact, r)
  {
    hide LittleEndian, Outputs;
  }

  /** The job was opened against this artifact and its reduction. */
  predicate Pins(h: Hash, job: AggregateJob, artifact: Bytes, r: AggregateReduction) {
    job.inputBundleHash == InputDigest(h, artifact) && job.expectedResultHash == JournalOf(h, artifact, r)
  }

  /** The artifact that was committed, its document, and its reduction. */
  ghost predicate ReducibleAs(h: Hash, codec: Codec, ipfs: Ipfs, cid: string, artifact: Bytes, document: Json, r: AggregateReduction) {
    ipfs(cid) == Some(artifact) && codec.dec(artifact) == Some(document) && ReducesTo(h, document, r)
  }

  lemma JournalMeans(h: Hash, codec: Codec, artifact: Bytes, r: AggregateReduction)
    ensures Journal(h, codec, artifact) == Ok(r) <==> codec.dec(artifact).Some? && ReducesTo(h, codec.dec(artifact).value, r)
  {
    hide Reduce, ReducesTo;
    if codec.dec(artifact).Some? {
      ReduceExactly(h, codec.dec(artifact).value, r);
    }
  }

  lemma ItemsOf(h: Hash, document: Json, r: AggregateReduction)
    requires ReducesTo(h, document, r)
    ensures ItemsAt(document) == Some(DocumentBranches(document))
    ensures forall i :: 0 <= i < |DocumentBranches(document)| ==> ReceiptAt(h, DocumentBranches(document)[i]).Some?
  {
    hide ReductionOf, ReceiptAt, NumberAt, BytesAt;
    var items :|
      && SoundHead(document, r.combinerId, r.trimBps, r.dictionarySize, items)
      && SoundBranches(h, r.combinerId, r.dictionarySize, items)
      && ReductionOf(h, r.combinerId, r.trimBps, r.dictionarySize, items, r);
    assert DocumentBranches(document) == items;
    forall i | 0 <= i < |items| ensures ReceiptAt(h, items[i]).Some? {
      assert SoundBranch(h, r.combinerId, r.dictionarySize, items[i]);
    }
  }

  predicate AllOnChain(h: Hash, accounts: Accounts, branches: seq<Json>) {
    forall i :: 0 <= i < |branches| ==> VerifierAccepts(h, accounts, branches[i])
  }

  /** The receipt on the job account is the outputs, or only their hash. */
  predicate Settles(h: Hash, receipt: Receipt, r: AggregateReduction) {
    receipt.hash == h(Outputs(r)) && (receipt.bytes == [] || receipt.bytes == Outputs(r))
  }

  /** For every job whose committed artifact reduces, whether or not a runner would take it: the verifier attests
      the hash of the outputs, and reports no error if and only if the digests are the job's, the receipt is the
      outputs, and every branch receipt is the one on chain. */
  lemma VerifierAttestsExactly(h: Hash, codec: Codec, ipfs: Ipfs, accounts: Accounts, job: AggregateJob, receipt: Receipt,
                               artifact: Bytes, document: Json, r: AggregateReduction)
    requires ReducibleAs(h, codec, ipfs, job.inputCid, artifact, document, r)
    ensures var verdict := Attest(h, codec, ipfs, accounts, job, receipt);
            && verdict.Ok? && verdict.value.hash == h(Outputs(r))
            && (verdict.value.errors == [] <==>
                  Pins(h, job, artifact, r) && Settles(h, receipt, r) && AllOnChain(h, accounts, DocumentBranches(document)))
  {
    hide Journal, ReducesTo, InputDigest, JournalOf, FramedInputDigest, ExpectedHash, Outputs, ReceiptAt, VerifierAccepts, VerifierBranchErrors, DocumentBranches, Reports;
    JournalMeans(h, codec, artifact, r);
    DigestsAre(h, artifact, r);
    ItemsOf(h, document, r);
    var at := VerifierReportsExactly(h, accounts, DocumentBranches(document));
  }

  function Unless(holds: bool, e: Refusal): seq<Refusal> {
    if holds then [] else [e]
  }

  /** The errors one by one: of the job, of the receipt, then of the branches. */
  lemma VerifierListsErrors(h: Hash, codec: Codec, ipfs: Ipfs, accounts: Accounts, job: AggregateJob, receipt: Receipt,
                            artifact: Bytes, document: Json, r: AggregateReduction)
    returns (own: seq<Refusal>, at: seq<nat>)
    requires ReducibleAs(h, codec, ipfs, job.inputCid, artifact, document, r)
    ensures Reports(h, accounts, DocumentBranches(document), own, at)
    ensures Attest(h, codec, ipfs, accounts, job, receipt).Ok?
    ensures Attest(h, codec, ipfs, accounts, job, receipt).value.errors
            == Unless(job.inputBundleHash == InputDigest(h, artifact), InputDigestDiffers)
               + Unless(job.expectedResultHash == JournalOf(h, artifact, r), JournalHashDiffers)
               + Unless(receipt.hash == h(Outputs(r)), OutputHashDiffers)
               + Unless(receipt.bytes == [] || receipt.bytes == Outputs(r), ReceiptBytesDiffer)
               + own
  {
    hide Journal, ReducesTo, InputDigest, JournalOf, FramedInputDigest, ExpectedHash, Outputs, ReceiptAt, VerifierAccepts, VerifierBranchErrors, DocumentBranches, Reports;
    JournalMeans(h, codec, artifact, r);
    DigestsAre(h, artifact, r);
    ItemsOf(h, document, r);
    own := VerifierBranchErrors(h, accounts, DocumentBranches(document));
    at := VerifierReportsExactly(h, accounts, DocumentBranches(document));
  }

  /** The verifier attests nothing exactly when there is no reduction to attest. */
  lemma VerifierAttestsSomething(h: Hash, codec: Codec, ipfs: Ipfs, accounts: Accounts, job: AggregateJob, receipt: Receipt)
    ensures Attest(h, codec, ipfs, accounts, job, receipt).Ok?
       <==> exists artifact, document, r :: ReducibleAs(h, codec, ipfs, job.inputCid, artifact, document, r)
  {
    hide ReducesTo, VerifierBranchErrors, Outputs, FramedInputDigest, ExpectedHash;
    if ipfs(job.inputCid).Some? {
      var artifact := ipfs(job.inputCid).value;
      forall r: AggregateReduction
        ensures Journal(h, codec, artifact) == Ok(r) <==> codec.dec(artifact).Some? && ReducesTo(h, codec.dec(artifact).value, r)
      {
        JournalMeans(h, codec, artifact, r);
      }
      hide Journal;
      if Journal(h, codec, artifact).Ok? {
        assert ReducibleAs(h, codec, ipfs, job.inputCid, artifact, codec.dec(artifact).value, Journal(h, codec, artifact).value);
      }
    }
  }

  // ----- the plan

  /** The parameters a plan names; none if it names none. */
  predicate PlansParameters(plan: Json, parameters: map<string, Json>) {
    match plan.Get("combiner_parameters")
    case None => parameters == map[]
    case Some(v) => if Falsy(v) then parameters == map[] else v == Obj(parameters)
  }

  /** The branch jobs a plan names, in order, unless it names none. */
  predicate PlansJobs(plan: Json, jobs: seq<string>) {
    match plan.Get("branch_jobs")
    case None => true
    case Some(v) => Falsy(v) || (v.Arr? && NamesJobs(v.items, jobs))
  }

  predicate NamesJobs(items: seq<Json>, jobs: seq<string>) {
    |items| == |jobs| && forall i :: 0 <= i < |items| ==> JobAt(items[i]) == Some(jobs[i])
  }

  /** The reducer image a plan names, unless it names none. */
  predicate PlansImage(plan: Json, image: Digest) {
    match plan.Get("bonsol")
    case None => true
    case Some(bonsol) =>
      || Falsy(bonsol)
      || (bonsol.Obj? && match bonsol.Get("image_id")
                         case None => true
                         case Some(v) => v == Str("") || v == Str(Hex.HexText(image)))
  }

  lemma {:induction false} JobNamesAre(items: seq<Json>, jobs: seq<string>)
    ensures JobNames(items) == Some(jobs) <==> NamesJobs(items, jobs)
    decreases |items|
  {
    if items != [] {
      var rest := items[1..];
      assert forall i :: 0 < i < |items| ==> items[i] == rest[i - 1];
      if jobs != [] {
        JobNamesAre(rest, jobs[1..]);
        assert jobs == [jobs[0]] + jobs[1..];
      }
      if JobNames(rest).Some? {
        JobNamesAre(rest, JobNames(rest).value);
      }
    }
  }

  lemma FollowsExactly(plan: Json, combiner: Option<Json>, parameters: map<string, Json>, jobs: seq<string>)
    ensures FollowsPlan(plan, combiner, parameters, jobs)
       <==> plan.Obj? && plan.Get("combiner") == combiner && PlansParameters(plan, parameters) && PlansJobs(plan, jobs)
  {
    var named := plan.Get("branch_jobs");
    if named.Some? && named.value.Arr? {
      JobNamesAre(named.value.items, jobs);
      if JobNames(named.value.items).Some? {
        JobNamesAre(named.value.items, JobNames(named.value.items).value);
      }
    }
    hide JobNames, JobAt;
  }

  /** Binding passes the plan check if and only if no plan is pinned, or the pinned one can be read and names the
      run's combiner, its parameters, and, where it names any, the bound jobs in order and the image. */
  lemma BindFollowsPlanExactly(codec: Codec, ipfs: Ipfs, run: RunManifest, jobs: seq<string>, image: Digest)
    ensures BindPlanCheck(codec, ipfs, run, jobs, image) == None <==>
              || run.planCid in {None, Some("")}
              || (&& ReadJson(codec, ipfs, run.planCid.value).Some?
                  && var plan := ReadJson(codec, ipfs, run.planCid.value).value;
                  && plan.Obj? && plan.Get("combiner") == Some(Str(run.combiner)) && PlansParameters(plan, run.parameters)
                  && PlansJobs(plan, jobs) && PlansImage(plan, image))
    ensures BindPlanCheck(codec, ipfs, run, jobs, image) == Some(PlanUnreadable) <==>
              run.planCid !in {None, Some("")} && ReadJson(codec, ipfs, run.planCid.value) == None
    ensures BindPlanCheck(codec, ipfs, run, jobs, image) in {None, Some(PlanUnreadable), Some(PlanDiffers)}
  {
    if run.planCid.Some? && ReadJson(codec, ipfs, run.planCid.value).Some? {
      var plan := ReadJson(codec, ipfs, run.planCid.value).value;
      FollowsExactly(plan, Some(Str(run.combiner)), run.parameters, jobs);
      ImageCheck(plan, image);
    }
    hide FollowsPlan, PlansParameters, PlansJobs, PlansImage, PlanImage, ReadJson;
  }

  lemma ImageCheck(plan: Json, image: Digest)
    ensures PlanImage(plan) in {Some(""), Some(Hex.HexText(image))} <==> PlansImage(plan, image)
  {
    hide Hex.HexText;
  }

  /** The parameters an artifact declares, as the runner compares them. */
  function Declared(document: Json): map<string, Json> {
    match document.Get("combiner_parameters")
    case Some(Obj(fields)) => fields
    case _ => map[]
  }

  /** The runner's plan check, the same way, over the artifact. */
  ghost predicate RunnerFollowsPlan(codec: Codec, ipfs: Ipfs, document: Json) {
    match document.Get("aggregate_plan_cid")
    case None => true
    case Some(cid) =>
      || Falsy(cid)
      || (&& cid.Str? && ReadJson(codec, ipfs, cid.s).Some?
          && var plan := ReadJson(codec, ipfs, cid.s).value;
          && plan.Obj? && plan.Get("combiner") == document.Get("combiner") && PlansParameters(plan, Declared(document))
          && exists jobs :: NamesJobs(DocumentBranches(document), jobs) && PlansJobs(plan, jobs))
  }

  lemma RunnerFollowsPlanExactly(codec: Codec, ipfs: Ipfs, document: Json)
    ensures RunnerPlanCheck(codec, ipfs, document) == None <==> RunnerFollowsPlan(codec, ipfs, document)
  {
    var branches := DocumentBranches(document);
    forall jobs: seq<string> ensures JobNames(branches) == Some(jobs) <==> NamesJobs(branches, jobs) {
      JobNamesAre(branches, jobs);
    }
    var cid := document.Get("aggregate_plan_cid");
    if cid.Some? && cid.value.Str? && ReadJson(codec, ipfs, cid.value.s).Some? && JobNames(branches).Some? {
      FollowsExactly(ReadJson(codec, ipfs, cid.value.s).value, document.Get("combiner"), Declared(document), JobNames(branches).value);
    }
    hide JobNames, NamesJobs, FollowsPlan, PlansParameters, PlansJobs, ReadJson, DocumentBranches;
  }

  // ----- the runner

  predicate AllAdmitted(h: Hash, accounts: Accounts, branches: seq<Json>, allow: bool) {
    forall i :: 0 <= i < |branches| ==> RunnerAdmits(h, accounts, branches[i], allow)
  }

  predicate IsZero(digest: Bytes) {
    |digest| == 32 && forall i :: 0 <= i < |digest| ==> digest[i] == 0
  }

  lemma ZeroHashIsZero(digest: Bytes)
    ensures IsZero(digest) <==> digest == ZERO_HASH
  {
    if IsZero(digest) {
      assert forall i :: 0 <= i < 32 ==> digest[i] == ZERO_HASH[i];
    }
  }

  lemma ChecksPass(h: Hash, codec: Codec, ipfs: Ipfs, accounts: Accounts, document: Json, allow: bool)
    ensures DocumentChecks(h, codec, ipfs, accounts, document, allow) == None
       <==> AllAdmitted(h, accounts, DocumentBranches(document), allow) && RunnerFollowsPlan(codec, ipfs, document)
  {
    hide FirstRefusal, RunnerPlanCheck, RunnerAdmits, RunnerFollowsPlan, DocumentBranches;
    RunnerChecksExactly(h, accounts, DocumentBranches(document), allow);
    RunnerFollowsPlanExactly(codec, ipfs, document);
  }

  lemma JobPasses(h: Hash, artifact: Bytes, r: AggregateReduction, job: AggregateJob)
    ensures JobRefusal(h, artifact, r, job) == None
       <==> job.expectedResultHash == JournalOf(h, artifact, r) && !IsZero(job.requiredSoftwareDigest)
  {
    hide IsZero, JournalOf, ExpectedHash;
    DigestsAre(h, artifact, r);
    ZeroHashIsZero(job.requiredSoftwareDigest);
  }

  /** On any job at all, the runner goes on with a reduction if and only if it is the reduction of the committed
      artifact, the job was opened against just that, the image is not zero, every branch receipt is on chain
      under a branch job that is done, and the artifact follows its plan. */
  lemma RunnerBindsExactly(h: Hash, codec: Codec, ipfs: Ipfs, accounts: Accounts, job: AggregateJob, allow: bool, r: AggregateReduction)
    ensures RunnerBinds(h, codec, ipfs, accounts, job, allow) == Ok(r)
       <==> exists artifact, document ::
              && ReducibleAs(h, codec, ipfs, job.inputCid, artifact, document, r)
              && Pins(h, job, artifact, r) && !IsZero(job.requiredSoftwareDigest)
              && AllAdmitted(h, accounts, DocumentBranches(document), allow)
              && RunnerFollowsPlan(codec, ipfs, document)
  {
    hide ReducesTo, DocumentChecks, FramedInputDigest, ExpectedHash, InputDigest, JournalOf, RunnerFollowsPlan, DocumentBranches, AllAdmitted, IsZero, Journal, JobRefusal;
    if ipfs(job.inputCid).Some? {
      var artifact := ipfs(job.inputCid).value;
      JournalMeans(h, codec, artifact, r);
      DigestsAre(h, artifact, r);
      JobPasses(h, artifact, r, job);
      if codec.dec(artifact).Some? {
        var document := codec.dec(artifact).value;
        ChecksPass(h, codec, ipfs, accounts, document, allow);
        if RunnerBinds(h, codec, ipfs, accounts, job, allow) == Ok(r) {
          assert ReducibleAs(h, codec, ipfs, job.inputCid, artifact, document, r);
        }
      }
    }
  }

  /** The order in which the runner refuses: the job against the artifact, the image, the branches, the plan. */
  ghost predicate RefusesInOrder(verdict: Result<AggregateReduction, Refusal>, pinned: bool, reduced: bool, zero: bool, branches: Option<Refusal>) {
    if !pinned then verdict == Err(InputDigestDiffers)
    else if !reduced then verdict == Err(JournalHashDiffers)
    else if zero then verdict == Err(ZeroSoftwareDigest)
    else if branches.Some? then verdict == Err(branches.value)
    else verdict.Err? ==> verdict.error in {PlanUnreadable, PlanDiffers, BadBranch}
  }

  lemma RunnerRefuses(h: Hash, codec: Codec, ipfs: Ipfs, accounts: Accounts, job: AggregateJob, allow: bool,
                      artifact: Bytes, document: Json, r: AggregateReduction)
    requires ReducibleAs(h, codec, ipfs, job.inputCid, artifact, document, r)
    ensures RefusesInOrder(RunnerBinds(h, codec, ipfs, accounts, job, allow),
                           job.inputBundleHash == InputDigest(h, artifact), job.expectedResultHash == JournalOf(h, artifact, r),
                           IsZero(job.requiredSoftwareDigest), FirstRefusal(h, accounts, DocumentBranches(document), allow))
  {
    hide ReducesTo, FramedInputDigest, ExpectedHash, InputDigest, JournalOf, DocumentBranches, FirstRefusal, IsZero, Journal, RunnerPlanCheck, Outputs;
    JournalMeans(h, codec, artifact, r);
    DigestsAre(h, artifact, r);
    ZeroHashIsZero(job.requiredSoftwareDigest);
    PlanVerdicts(codec, ipfs, document);
  }

  lemma PlanVerdicts(codec: Codec, ipfs: Ipfs, document: Json)
    ensures RunnerPlanCheck(codec, ipfs, document) in {None, Some(PlanUnreadable), Some(PlanDiffers), Some(BadBranch)}
  {
    hide FollowsPlan, JobNames, ReadJson;
  }

  // ----- what binding fixes

  /** What the artifact says of one branch: its index, its job, what the job account holds, and weight one. */
  ghost predicate ItemSays(item: Json, branch: BranchJob, account: Account) {
    && NumberAt(item, "branch_index") == Some(branch.index) && TextAt(item, "job") == Some(branch.job)
    && TextAt(item, "output_cid") == Some(account.outputCid) && BytesAt(item, "result_bytes") == Some(account.resultBytes)
    && BytesAt(item, "result_hash") == Some(account.resultHash) && NumberAt(item, "weight") == Some(1)
  }

  ghost predicate ItemsSay(items: seq<Json>, branches: seq<BranchJob>, accounts: Accounts) {
    |items| == |branches| && forall i :: 0 <= i < |branches| ==>
      branches[i].job in accounts && ItemSays(items[i], branches[i], accounts[branches[i].job])
  }

  /** What the artifact says of the run. */
  predicate HeadSays(document: Json, run: RunManifest) {
    SchemaSays(document) && RunSays(document, run) && CombinerSays(document, run) && PlanSays(document, run) && ParametersSay(document, run)
  }

  predicate SchemaSays(document: Json) {
    TextAt(document, "schema") == Some("MFA3") && NumberAt(document, "schema_version") == Some(3)
  }

  predicate RunSays(document: Json, run: RunManifest) {
    && TextAt(document, "parent_run") == Some(run.parentRun) && TextAt(document, "parent_manifest_cid") == Some(run.parentManifestCid)
    && TextAt(document, "output_schema_hash") == Some(run.outputSchemaHash)
  }

  predicate CombinerSays(document: Json, run: RunManifest) {
    && TextAt(document, "combiner") == Some(run.combiner)
    && NumberAt(document, "combiner_id").Some? && Names(NumberAt(document, "combiner_id").value, run.combiner)
  }

  predicate PlanSays(document: Json, run: RunManifest) {
    document.Get("aggregate_plan_cid") == if run.planCid in {None, Some("")} then None else Some(Str(run.planCid.value))
  }

  /** The run's parameters, to which majority-vote adds the size of its dictionary. */
  predicate ParametersSay(document: Json, run: RunManifest) {
    document.Get("combiner_parameters")
    == Some(Obj(if run.combiner == "majority-vote" then run.parameters["category_dictionary_size" := Int(run.dictionarySize)] else run.parameters))
  }

  lemma DocumentItemSays(h: Hash, b: BoundBranch, branch: BranchJob, account: Account)
    requires b == BoundBranch(branch.index, branch.job, account.outputCid, account.resultBytes) && h(account.resultBytes) == account.resultHash
    ensures ItemSays(BranchDocument(h, b), branch, account)
  {
    Hex.HexTextRoundTrip(b.resultBytes);
    Hex.HexTextRoundTrip(h(b.resultBytes));
    hide Hex.HexText, Hex.HexBytes;
  }

  lemma DocumentItemsSay(h: Hash, accounts: Accounts, branches: seq<BranchJob>, bound: seq<BoundBranch>, allow: bool)
    requires CollectReceipts(h, accounts, branches, allow) == Ok(bound)
    ensures ItemsSay(BranchDocuments(h, bound), branches, accounts)
  {
    CollectedReceipts(h, accounts, branches, allow);
    hide CollectReceipts, BranchDocument, ItemSays;
    forall i | 0 <= i < |branches| ensures ItemSays(BranchDocuments(h, bound)[i], branches[i], accounts[branches[i].job]) {
      DocumentItemSays(h, bound[i], branches[i], accounts[branches[i].job]);
    }
  }

  lemma DocumentSchemaSays(h: Hash, run: RunManifest, id: nat, parameters: map<string, Json>, branches: seq<BoundBranch>)
    ensures SchemaSays(ArtifactDocument(h, run, id, parameters, branches))
  {
    hide BranchDocuments, Sort, PlanOf;
  }

  lemma DocumentRunSays(h: Hash, run: RunManifest, id: nat, parameters: map<string, Json>, branches: seq<BoundBranch>)
    ensures RunSays(ArtifactDocument(h, run, id, parameters, branches), run)
  {
    hide BranchDocuments, Sort, PlanOf;
  }

  lemma DocumentCombinerSays(h: Hash, run: RunManifest, id: nat, parameters: map<string, Json>, branches: seq<BoundBranch>)
    requires Names(id, run.combiner)
    ensures CombinerSays(ArtifactDocument(h, run, id, parameters, branches), run)
  {
    hide BranchDocuments, Sort, PlanOf, Names;
  }

  lemma IdsAreNames(name: string)
    requires CombinerIdOf(name).Some?
    ensures Names(CombinerIdOf(name).value, name)
  {
  }

  lemma DocumentHeadSays(h: Hash, run: RunManifest, id: nat, parameters: map<string, Json>, branches: seq<BoundBranch>)
    requires CombinerIdOf(run.combiner) == Some(id) && BindParameters(run) == Ok(parameters)
    ensures HeadSays(ArtifactDocument(h, run, id, parameters, branches), run)
  {
    IdsAreNames(run.combiner);
    hide ArtifactDocument, SchemaSays, RunSays, CombinerSays, Names, CombinerIdOf;
    DocumentSchemaSays(h, run, id, parameters, branches);
    DocumentRunSays(h, run, id, parameters, branches);
    DocumentCombinerSays(h, run, id, parameters, branches);
    DocumentPlan(h, run, id, parameters, branches);
    DocumentParameters(h, run, id, parameters, branches);
  }

  lemma ArtifactItems(h: Hash, run: RunManifest, id: nat, parameters: map<string, Json>, branches: seq<BoundBranch>)
    ensures DocumentBranches(ArtifactDocument(h, run, id, parameters, branches)) == BranchDocuments(h, Sort(branches, ByIndex))
  {
    hide Sort, BranchDocuments, PlanOf;
  }

  /** In whatever order the manifest lists the branches, the artifact has all of them in ascending order of index. */
  lemma ArtifactOrdersBranches(h: Hash, run: RunManifest, id: nat, parameters: map<string, Json>, branches: seq<BoundBranch>)
    returns (ordered: seq<BoundBranch>)
    ensures multiset(ordered) == multiset(branches)
    ensures forall i, j :: 0 <= i < j < |ordered| ==> ordered[i].index <= ordered[j].index
    ensures DocumentBranches(ArtifactDocument(h, run, id, parameters, branches)) == BranchDocuments(h, ordered)
  {
    hide BranchDocuments, Sort;
    ordered := Sort(branches, ByIndex);
    SortSorts(branches, ByIndex);
    ArtifactItems(h, run, id, parameters, branches);
    hide ArtifactDocument, DocumentBranches;
    forall i, j | 0 <= i < j < |ordered| ensures ordered[i].index <= ordered[j].index {
      assert ByIndex(ordered[i], ordered[j]);
    }
  }

  /** What a successful bind-aggregate fixes for good: the job names the artifact, is pinned to it and to its
      reduction, and requires the image; the artifact says of the run and of each branch what the manifest and the
      branch account say. */
  lemma BindFixes(h: Hash, codec: Codec, ipfs: Ipfs, cidOf: Bytes -> string, accounts: Accounts, run: RunManifest, image: Digest,
                  allow: bool, bound: Bound)
    returns (document: Json, r: AggregateReduction)
    requires Bind(h, codec, ipfs, cidOf, accounts, run, image, allow) == Ok(bound)
    requires codec.Faithful() && Increasing(run.branches)
    ensures bound.job.inputCid == cidOf(bound.artifact) && bound.job.requiredSoftwareDigest == image
    ensures Pins(h, bound.job, bound.artifact, r) && codec.dec(bound.artifact) == Some(document) && ReducesTo(h, document, r)
    ensures HeadSays(document, run) && ItemsAt(document).Some? && ItemsSay(ItemsAt(document).value, run.branches, accounts)
  {
    hide Bind, CollectReceipts, ArtifactDocument, Journal, BindPlanCheck, BindParameters, CombinerIdOf, FramedInputDigest, ExpectedHash, InputDigest, JournalOf, ReducesTo, JobsOf, Increasing, HeadSays, ItemsSay, DocumentBranches, BranchDocuments;
    var branches, parameters;
    branches, parameters, document := BindParts(h, codec, ipfs, cidOf, accounts, run, image, allow);
    var id := CombinerIdOf(run.combiner).value;
    r := Journal(h, codec, bound.artifact).value;
    JournalMeans(h, codec, bound.artifact, r);
    DigestsAre(h, bound.artifact, r);
    CollectedIncrease(h, accounts, run.branches, allow, branches);
    DocumentBranchesField(h, run, id, parameters, branches);
    DocumentHeadSays(h, run, id, parameters, branches);
    DocumentItemsSay(h, accounts, run.branches, branches, allow);
    ItemsOf(h, document, r);
  }

  /** The order in which binding refuses: a branch, the plan, a missing dictionary, an unknown combiner, and last
      what the reducer would refuse. */
  lemma BindRefuses(h: Hash, codec: Codec, ipfs: Ipfs, cidOf: Bytes -> string, accounts: Accounts, run: RunManifest, image: Digest, allow: bool)
    ensures var r := Bind(h, codec, ipfs, cidOf, accounts, run, image, allow);
            var collected := CollectReceipts(h, accounts, run.branches, allow);
            if collected.Err? then r == Err(collected.error)
            else
              var plan := BindPlanCheck(codec, ipfs, run, JobsOf(collected.value), image);
              if plan.Some? then r == Err(plan.value)
              else if run.combiner == "majority-vote" && run.dictionarySize == 0 then r == Err(NoDictionary)
              else if run.combiner !in {"weighted-mean", "trimmed-mean", "majority-vote"} then r == Err(UnknownCombiner)
              else r.Err? ==> r.error == NotJson || r.error.ReducerRefuses?
  {
    hide CollectReceipts, BindPlanCheck, JobsOf, ArtifactDocument, Reduce, FramedInputDigest, ExpectedHash;
  }
}

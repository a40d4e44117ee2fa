/** The prediction-run protocol as a transition system: `predict open`, `resume`, `bind-aggregate` and
    `cancel` over a saved manifest and the chain, stopped at any point, with workers moving in between. */
module PredictRun {
  import opened Results

  // ----- manifest and chain

  datatype EntryStatus = Planned | Opened | Committed | Deferred | Cancelled

  datatype RunStatus = Opening | Open | RunCancelled

  /** A run manifest: the branch entries in order, then the aggregate entry. */
  datatype Run = Run(status: RunStatus, entries: seq<EntryStatus>)

  datatype JobStatus =
    | AwaitingArtifact
    | JobOpen
    | Claimed
    | Completed
    | Settled
    | JobCancelled
    | Slashed
    | CancelledOnExhaustion
    | CancelledOnTimeout

  /** Job accounts by entry: an entry's address is derived from its nonce, and no two nonces are equal. */
  type Chain = map<nat, JobStatus>

  datatype Command = PredictOpen | PredictResume | PredictBind | PredictCancel

  datatype TxKind = OpenJob | CommitInput | CancelOpen

  /** A transaction the CLI sent; `valid` says whether the program would accept it at that moment. */
  datatype Tx = Tx(kind: TxKind, entry: nat, sender: Command, valid: bool, landed: bool)

  predicate Pending(s: EntryStatus) {
    s == Planned || s == Opened
  }

  function Aggregate(run: Run): int {
    |run.entries| - 1
  }

  function FreshRun(branches: nat): Run {
    Run(Opening, seq(branches, i => Planned) + [Deferred])
  }

  function SetEntry(run: Run, i: nat, s: EntryStatus): Run
    requires i < |run.entries|
  {
    run.(entries := run.entries[i := s])
  }

  // ----- nonces

  const NONCE_MAX := 0xFFFF_FFFF_FFFF_FFFF

  /** `planned_nonces`: consecutive branch nonces, then the aggregate's. */
  function PlannedNonces(base: nat, branches: nat): Option<seq<nat>> {
    if base + branches > NONCE_MAX then None else Some(seq(branches + 1, i => base + i))
  }

  /** Nonces are planned exactly when the last fits a u64; they are consecutive from the base, one for each entry of
      the run, the aggregate's last; so they are pairwise distinct, and so are the entries' job addresses. */
  lemma PlannedNoncesDistinct(base: nat, branches: nat)
    ensures PlannedNonces(base, branches).Some? <==> base + branches < 0x1_0000_0000_0000_0000
    ensures PlannedNonces(base, branches).Some? ==>
              var nonces := PlannedNonces(base, branches).value;
              && |nonces| == |FreshRun(branches).entries| && nonces[Aggregate(FreshRun(branches))] == base + branches
              && (forall i :: 0 <= i < |nonces| ==> nonces[i] == base + i && nonces[i] <= NONCE_MAX)
              && (forall i, j :: 0 <= i < j < |nonces| ==> nonces[i] != nonces[j])
  {
  }

  // ----- what the program accepts

  predicate Accepts(chain: Chain, kind: TxKind, i: nat) {
    match kind
    case OpenJob => i !in chain
    case CommitInput => i in chain && chain[i] == AwaitingArtifact
    case CancelOpen => i in chain && (chain[i] == AwaitingArtifact || chain[i] == JobOpen)
  }

  function Effect(chain: Chain, kind: TxKind, i: nat): Chain {
    match kind
    case OpenJob => chain[i := AwaitingArtifact]
    case CommitInput => chain[i := JobOpen]
    case CancelOpen => chain[i := JobCancelled]
  }

  /** Workers and the program move jobs that are open to them, never back to awaiting an artifact. */
  predicate WorkerMove(chain: Chain, i: nat, to: JobStatus) {
    i in chain && chain[i] in {JobOpen, Claimed, Completed} && to != AwaitingArtifact
  }

  // ----- where a command can be stopped

  /** The running command: the next thing it does, and the manifest it holds in memory. */
  datatype Proc =
    | Idle
    | AssertAbsent(cmd: Command, mem: Run)
    | SavePlan(mem: Run)
    | Reconcile(i: nat, mem: Run)
    | SaveReconciled(mem: Run)
    | Collect(i: nat, mem: Run)
    | SaveBound(mem: Run)
    | Drive(cmd: Command, i: nat, mem: Run)
    | SaveOpened(cmd: Command, i: nat, mem: Run)
    | SaveCommitted(cmd: Command, i: nat, mem: Run)
    | SaveRunOpen(mem: Run)
    | Cancelling(i: nat, mem: Run)
    | SendCancel(i: nat, mem: Run)
    | SaveEntryCancelled(i: nat, mem: Run)
    | SaveRunCancelled(mem: Run)

  /** `everCancelled` remembers whether the run was ever saved as cancelled. */
  datatype World = World(disk: Option<Run>, chain: Chain, log: seq<Tx>, everCancelled: bool, proc: Proc)

  // ----- steps

  predicate StartOpen(w: World, w': World, branches: nat) {
    w.disk == None && w.proc == Idle && w' == w.(proc := AssertAbsent(PredictOpen, FreshRun(branches)))
  }

  predicate StartResume(w: World, w': World) {
    w.proc == Idle && w.disk.Some? && w.disk.value.status == Opening && w' == w.(proc := Reconcile(0, w.disk.value))
  }

  predicate StartBind(w: World, w': World) {
    && w.proc == Idle && w.disk.Some? && w.disk.value.entries != []
    && w.disk.value.entries[Aggregate(w.disk.value)] in {Deferred, Planned, Opened}
    && w' == w.(proc := Collect(0, w.disk.value))
  }

  predicate StartCancel(w: World, w': World) {
    w.proc == Idle && w.disk.Some? && w' == w.(proc := Cancelling(0, w.disk.value))
  }

  /** The command is killed, or raises: what it held in memory is gone. */
  predicate Crash(w: World, w': World) {
    w' == w.(proc := Idle)
  }

  predicate Work(w: World, w': World, i: nat, to: JobStatus) {
    WorkerMove(w.chain, i, to) && w' == w.(chain := w.chain[i := to])
  }

  predicate Save(w: World, w': World, mem: Run, next: Proc) {
    w' == w.(disk := Some(mem), proc := next, everCancelled := w.everCancelled || mem.status == RunCancelled)
  }

  /** A transaction is sent: it lands, if the program accepts it, or it does not; the command learns of
      the landing and goes on, or is left without an answer and ends. */
  predicate Send(w: World, w': World, kind: TxKind, i: nat, sender: Command, confirmed: Proc) {
    var valid := Accepts(w.chain, kind, i);
    || (&& valid
        && (w'.proc == confirmed || w'.proc == Idle)
        && w' == w.(chain := Effect(w.chain, kind, i), log := w.log + [Tx(kind, i, sender, valid, true)], proc := w'.proc))
    || w' == w.(log := w.log + [Tx(kind, i, sender, valid, false)], proc := Idle)
  }

  function Reconciled(chain: Chain, i: nat): EntryStatus {
    if i !in chain then Planned else if chain[i] == AwaitingArtifact then Opened else Committed
  }

  predicate AbsentStep(w: World, w': World, cmd: Command, mem: Run) {
    if cmd == PredictOpen then
      w' == w.(proc := if forall i :: 0 <= i < |mem.entries| ==> i !in w.chain then SavePlan(mem) else Idle)
    else
      w' == w.(proc := if Aggregate(mem) !in w.chain then Drive(PredictBind, 0, mem) else Idle)
  }

  predicate ReconcileStep(w: World, w': World, i: nat, mem: Run) {
    if i >= |mem.entries| then w' == w.(proc := SaveReconciled(mem))
    else if Pending(mem.entries[i]) then w' == w.(proc := Reconcile(i + 1, SetEntry(mem, i, Reconciled(w.chain, i))))
    else w' == w.(proc := Reconcile(i + 1, mem))
  }

  /** Each branch job must have settled; with the flag, completed and attested is enough. */
  predicate CollectStep(w: World, w': World, i: nat, mem: Run) {
    if mem.entries == [] then w' == w.(proc := Idle)
    else if i >= Aggregate(mem) then
      w' == w.(proc := SaveBound(SetEntry(mem, Aggregate(mem), Planned).(status := Opening)))
    else if i in w.chain && (w.chain[i] == Settled || w.chain[i] == Completed) then
      w' == w.(proc := Collect(i + 1, mem)) || (w.chain[i] == Completed && w' == w.(proc := Idle))
    else w' == w.(proc := Idle)
  }

  predicate DriveStep(w: World, w': World, cmd: Command, i: nat, mem: Run) {
    if i >= |mem.entries| then w' == w.(proc := SaveRunOpen(mem.(status := Open)))
    else if mem.entries[i] == Planned then Send(w, w', OpenJob, i, cmd, SaveOpened(cmd, i, SetEntry(mem, i, Opened)))
    else if mem.entries[i] == Opened then Send(w, w', CommitInput, i, cmd, SaveCommitted(cmd, i, SetEntry(mem, i, Committed)))
    else w' == w.(proc := Drive(cmd, i + 1, mem))
  }

  predicate CancelStep(w: World, w': World, i: nat, mem: Run) {
    if i >= |mem.entries| then w' == w.(proc := SaveRunCancelled(mem.(status := RunCancelled)))
    else if i !in w.chain then
      w' == w.(proc := Cancelling(i + 1, if Pending(mem.entries[i]) || mem.entries[i] == Deferred then SetEntry(mem, i, Cancelled) else mem))
    else if w.chain[i] == AwaitingArtifact || w.chain[i] == JobOpen then w' == w.(proc := SendCancel(i, mem))
    else w' == w.(proc := Cancelling(i + 1, mem))
  }

  /** What the running command does next. */
  predicate CliStep(w: World, w': World) {
    match w.proc
    case Idle => false
    case AssertAbsent(cmd, mem) => AbsentStep(w, w', cmd, mem)
    case SavePlan(mem) => Save(w, w', mem, Drive(PredictOpen, 0, mem))
    case Reconcile(i, mem) => ReconcileStep(w, w', i, mem)
    case SaveReconciled(mem) => Save(w, w', mem, Drive(PredictResume, 0, mem))
    case Collect(i, mem) => CollectStep(w, w', i, mem)
    case SaveBound(mem) => Save(w, w', mem, AssertAbsent(PredictBind, mem))
    case Drive(cmd, i, mem) => DriveStep(w, w', cmd, i, mem)
    case SaveOpened(cmd, i, mem) => Save(w, w', mem, Drive(cmd, i, mem))
    case SaveCommitted(cmd, i, mem) => Save(w, w', mem, Drive(cmd, i + 1, mem))
    case SaveRunOpen(mem) => Save(w, w', mem, Idle)
    case Cancelling(i, mem) => CancelStep(w, w', i, mem)
    case SendCancel(i, mem) =>
      if i < |mem.entries| then Send(w, w', CancelOpen, i, PredictCancel, SaveEntryCancelled(i, SetEntry(mem, i, Cancelled)))
      else w' == w.(proc := Idle)
    case SaveEntryCancelled(i, mem) => Save(w, w', mem, Cancelling(i + 1, mem))
    case SaveRunCancelled(mem) => Save(w, w', mem, Idle)
  }

  ghost predicate Next(w: World, w': World) {
    || (exists n: nat :: StartOpen(w, w', n))
    || StartResume(w, w')
    || StartBind(w, w')
    || StartCancel(w, w')
    || Crash(w, w')
    || (exists i: nat, to: JobStatus :: Work(w, w', i, to))
    || CliStep(w, w')
  }

  /** Before the first command: no manifest, whatever accounts the chain already has. */
  predicate Init(w: World) {
    w.disk == None && w.log == [] && !w.everCancelled && w.proc == Idle
  }

  ghost predicate Execution(ws: seq<World>) {
    |ws| > 0 && forall i :: 0 <= i < |ws| - 1 ==> Next(ws[i], ws[i + 1])
  }

  // ----- invariants

  /** The manifest is not ahead of the chain. */
  ghost predicate NotAhead(run: Run, chain: Chain) {
    forall i :: 0 <= i < |run.entries| ==>
      && (run.entries[i] == Opened ==> i in chain)
      && (run.entries[i] == Committed ==> i in chain && chain[i] != AwaitingArtifact)
  }

  /** Every pending entry below `n` is exactly where the chain says. */
  ghost predicate SyncedBelow(run: Run, chain: Chain, n: nat) {
    forall i :: 0 <= i < |run.entries| && i < n ==>
      && (run.entries[i] == Planned ==> i !in chain)
      && (run.entries[i] == Opened ==> i in chain && chain[i] == AwaitingArtifact)
  }

  ghost predicate Synced(run: Run, chain: Chain) {
    SyncedBelow(run, chain, |run.entries|)
  }

  ghost predicate NonePendingBelow(run: Run, n: nat) {
    forall i :: 0 <= i < |run.entries| && i < n ==> !Pending(run.entries[i])
  }

  /** Every entry below `n` is retired: cancelled, or its job is past awaiting its artifact. */
  ghost predicate SealedBelow(run: Run, chain: Chain, n: nat) {
    forall i :: 0 <= i < |run.entries| && i < n ==>
      run.entries[i] == Cancelled || (i in chain && chain[i] != AwaitingArtifact)
  }

  ghost predicate Sealed(run: Run, chain: Chain) {
    SealedBelow(run, chain, |run.entries|)
  }

  /** The branch jobs below `n` all exist and are past awaiting their artifact. */
  ghost predicate BranchesDone(run: Run, chain: Chain, n: nat) {
    forall i :: 0 <= i < Aggregate(run) && i < n ==> i in chain && chain[i] != AwaitingArtifact
  }

  /** The aggregate entry, once its absence was checked. */
  ghost predicate AggregateSynced(run: Run, chain: Chain) {
    run.entries != [] ==>
      var a := Aggregate(run);
      && (run.entries[a] == Planned ==> a !in chain)
      && (run.entries[a] == Opened ==> a in chain && chain[a] == AwaitingArtifact)
  }

  /** What driving the manifest relies on: everything synced for open and resume; for bind-aggregate
      the branches are done and the aggregate is synced. */
  ghost predicate DriveReady(cmd: Command, run: Run, chain: Chain) {
    if cmd == PredictOpen || cmd == PredictResume then Synced(run, chain)
    else (cmd == PredictBind && BranchesDone(run, chain, |run.entries|) && AggregateSynced(run, chain))
  }

  /** What the running command knows. */
  ghost predicate ProcInv(w: World) {
    match w.proc
    case Idle => true
    case AssertAbsent(cmd, mem) =>
      if cmd == PredictOpen then w.disk == None && Fresh(mem)
      else (cmd == PredictBind && mem.entries != [] && mem.entries[Aggregate(mem)] == Planned && BranchesDone(mem, w.chain, |mem.entries|))
    case SavePlan(mem) => w.disk == None && Fresh(mem) && Synced(mem, w.chain)
    case Reconcile(i, mem) => SyncedBelow(mem, w.chain, i)
    case SaveReconciled(mem) => Synced(mem, w.chain)
    case Collect(i, mem) => mem.entries != [] && mem.entries[Aggregate(mem)] in {Deferred, Planned, Opened} && BranchesDone(mem, w.chain, i)
    case SaveBound(mem) => mem.entries != [] && mem.entries[Aggregate(mem)] == Planned && BranchesDone(mem, w.chain, |mem.entries|)
    case Drive(cmd, i, mem) => DriveReady(cmd, mem, w.chain) && NonePendingBelow(mem, i)
    case SaveOpened(cmd, i, mem) => i < |mem.entries| && DriveReady(cmd, mem, w.chain) && NonePendingBelow(mem, i)
    case SaveCommitted(cmd, i, mem) => i < |mem.entries| && DriveReady(cmd, mem, w.chain) && NonePendingBelow(mem, i + 1)
    case SaveRunOpen(mem) => NonePendingBelow(mem, |mem.entries|) && mem.status == Open
    case Cancelling(i, mem) => SealedBelow(mem, w.chain, i)
    case SendCancel(i, mem) => i < |mem.entries| && SealedBelow(mem, w.chain, i)
    case SaveEntryCancelled(i, mem) => SealedBelow(mem, w.chain, i + 1)
    case SaveRunCancelled(mem) => Sealed(mem, w.chain) && mem.status == RunCancelled
  }

  predicate Fresh(run: Run) {
    run.status == Opening && forall i :: 0 <= i < |run.entries| ==> run.entries[i] == Planned || run.entries[i] == Deferred
  }

  /** How often an entry's escrow was funded. */
  function Fundings(log: seq<Tx>, i: nat): nat {
    if log == [] then 0
    else
      var last := log[|log| - 1];
      Fundings(log[..|log| - 1], i) + (if last.kind == OpenJob && last.entry == i && last.landed then 1 else 0)
  }

  ghost predicate FundingInv(log: seq<Tx>, chain: Chain) {
    forall i: nat :: Fundings(log, i) <= 1 && (Fundings(log, i) == 1 ==> i in chain)
  }

  /** Neither open nor resume ever sent a transaction the program would refuse. */
  ghost predicate LogInv(log: seq<Tx>) {
    forall k :: 0 <= k < |log| ==> log[k].sender == PredictOpen || log[k].sender == PredictResume ==> log[k].valid
  }

  /** What holds for ever once the run was saved as cancelled. */
  ghost predicate CancelledInv(w: World) {
    w.everCancelled ==>
      && w.disk.Some? && Sealed(w.disk.value, w.chain)
      && match w.proc
         case Idle => true
         case AssertAbsent(cmd, mem) => cmd == PredictBind && Aggregate(mem) in w.chain
         case SavePlan(mem) => false
         case Reconcile(i, mem) => Sealed(mem, w.chain) && NonePendingBelow(mem, i)
         case SaveReconciled(mem) => Sealed(mem, w.chain) && NonePendingBelow(mem, |mem.entries|)
         case Collect(i, mem) => Sealed(mem, w.chain)
         case SaveBound(mem) => Sealed(mem, w.chain) && Aggregate(mem) in w.chain
         case Drive(cmd, i, mem) => Sealed(mem, w.chain) && NonePendingBelow(mem, |mem.entries|)
         case SaveOpened(cmd, i, mem) => false
         case SaveCommitted(cmd, i, mem) => false
         case SaveRunOpen(mem) => Sealed(mem, w.chain)
         case Cancelling(i, mem) => Sealed(mem, w.chain)
         case SendCancel(i, mem) => Sealed(mem, w.chain)
         case SaveEntryCancelled(i, mem) => Sealed(mem, w.chain)
         case SaveRunCancelled(mem) => Sealed(mem, w.chain)
  }

  ghost predicate ManifestInv(w: World) {
    && (w.disk.Some? ==> NotAhead(w.disk.value, w.chain))
    && (w.proc != Idle ==> NotAhead(w.proc.mem, w.chain))
    && (w.disk.Some? && w.disk.value.status == RunCancelled ==> w.everCancelled)
    && (w.proc != Idle && w.proc.mem.status == RunCancelled ==> w.everCancelled || w.proc.SaveRunCancelled?)
  }

  ghost predicate Inv(w: World) {
    ManifestInv(w) && ProcInv(w) && FundingInv(w.log, w.chain) && LogInv(w.log) && CancelledInv(w)
  }
}

/** The commands as the CLI runs them: one manifest updated in place inside loops and saved between
    transactions.  Every method extends a history that is a run of the transition system. */
module PredictCli {
  import opened Results
  import opened PredictRun
  import opened PredictTheorems

  datatype Move = Move(entry: nat, to: JobStatus)

  /** What the world does at one call: which jobs workers move before it, whether the command is killed,
      and, for a transaction, whether it is delivered and whether the answer comes back. */
  datatype Turn = Turn(moves: seq<Move>, killed: bool, delivered: bool, answered: bool)

  ghost predicate History(trace: seq<World>) {
    Execution(trace) && Init(trace[0])
  }

  lemma HistoryExtends(trace: seq<World>, w': World)
    requires History(trace) && Next(trace[|trace| - 1], w')
    ensures History(trace + [w'])
  {
    hide Next;
    var longer := trace + [w'];
    forall i | 0 <= i < |longer| - 1 ensures Next(longer[i], longer[i + 1]) {
      assert i < |trace| - 1 ==> Next(trace[i], trace[i + 1]);
    }
  }

  /** The points at which the command sends this transaction, and where it stands once it is confirmed. */
  ghost predicate Sends(p: Proc, kind: TxKind, i: nat, sender: Command, confirmed: Proc) {
    match p
    case Drive(cmd, j, mem) =>
      && i == j < |mem.entries| && sender == cmd
      && (|| (mem.entries[i] == Planned && kind == OpenJob && confirmed == SaveOpened(cmd, i, SetEntry(mem, i, Opened)))
          || (mem.entries[i] == Opened && kind == CommitInput && confirmed == SaveCommitted(cmd, i, SetEntry(mem, i, Committed))))
    case SendCancel(j, mem) =>
      i == j < |mem.entries| && sender == PredictCancel && kind == CancelOpen && confirmed == SaveEntryCancelled(i, SetEntry(mem, i, Cancelled))
    case _ => false
  }

  /** The transaction landed, and the command goes on at `next`. */
  function Landed(w: World, kind: TxKind, i: nat, sender: Command, next: Proc): World {
    w.(chain := Effect(w.chain, kind, i), log := w.log + [Tx(kind, i, sender, true, true)], proc := next)
  }

  function Lost(w: World, kind: TxKind, i: nat, sender: Command): World {
    w.(log := w.log + [Tx(kind, i, sender, Accepts(w.chain, kind, i), false)], proc := Idle)
  }

  lemma DriveGoesOn(w: World, cmd: Command, i: nat, mem: Run, next: Proc)
    requires w.proc == Drive(cmd, i, mem) && DriveStep(w, w.(proc := next), cmd, i, mem)
    ensures Next(w, w.(proc := next))
  {
    hide DriveStep;
    assert CliStep(w, w.(proc := next));
  }

  lemma CancelGoesOn(w: World, i: nat, mem: Run, next: Proc)
    requires w.proc == Cancelling(i, mem) && CancelStep(w, w.(proc := next), i, mem)
    ensures Next(w, w.(proc := next))
  {
    hide CancelStep;
    assert CliStep(w, w.(proc := next));
  }

  lemma CollectGoesOn(w: World, i: nat, mem: Run, next: Proc)
    requires w.proc == Collect(i, mem) && CollectStep(w, w.(proc := next), i, mem)
    ensures Next(w, w.(proc := next))
  {
    hide CollectStep;
    assert CliStep(w, w.(proc := next));
  }

  lemma ReconcileGoesOn(w: World, i: nat, mem: Run, next: Proc)
    requires w.proc == Reconcile(i, mem) && ReconcileStep(w, w.(proc := next), i, mem)
    ensures Next(w, w.(proc := next))
  {
    hide ReconcileStep;
    assert CliStep(w, w.(proc := next));
  }

  lemma SavingIsAStep(w: World, mem: Run, next: Proc)
    requires Saves(w.proc, mem, next)
    ensures Next(w, Saved(w, mem, next))
  {
    assert CliStep(w, Saved(w, mem, next));
  }

  lemma EffectFits(chain: Chain, kind: TxKind, i: nat)
    ensures Fits(chain, kind, i) ==> Accepts(chain, kind, i)
    ensures Accepts(chain, kind, i) ==>
              Effect(chain, kind, i) == chain[i := StatusAfter(kind)]
  {
  }

  lemma SendingIsAStep(w: World, kind: TxKind, i: nat, sender: Command, confirmed: Proc, next: Proc)
    requires Sends(w.proc, kind, i, sender, confirmed)
    ensures Next(w, Lost(w, kind, i, sender))
    ensures Accepts(w.chain, kind, i) && next in {confirmed, Idle} ==> Next(w, Landed(w, kind, i, sender, next))
  {
    var lost, landed := Lost(w, kind, i, sender), Landed(w, kind, i, sender, next);
    assert Send(w, lost, kind, i, sender, confirmed);
    assert Accepts(w.chain, kind, i) && next in {confirmed, Idle} ==> Send(w, landed, kind, i, sender, confirmed);
    hide Accepts, Effect;
    assert CliStep(w, lost);
    assert Accepts(w.chain, kind, i) && next in {confirmed, Idle} ==> CliStep(w, landed);
  }

  /** The points at which the command saves the manifest it holds, and where it goes on. */
  ghost predicate Saves(p: Proc, mem: Run, next: Proc) {
    p != Idle && p.mem == mem
    && match p
       case SavePlan(_) => next == Drive(PredictOpen, 0, mem)
       case SaveReconciled(_) => next == Drive(PredictResume, 0, mem)
       case SaveBound(_) => next == AssertAbsent(PredictBind, mem)
       case SaveOpened(cmd, i, _) => next == Drive(cmd, i, mem)
       case SaveCommitted(cmd, i, _) => next == Drive(cmd, i + 1, mem)
       case SaveEntryCancelled(i, _) => next == Cancelling(i + 1, mem)
       case SaveRunOpen(_) => next == Idle
       case SaveRunCancelled(_) => next == Idle
       case _ => false
  }

  /** What driving does to the entries: those that were pending are committed, the others kept. */
  ghost predicate Driven(before: seq<EntryStatus>, after: seq<EntryStatus>, n: nat) {
    && |after| == |before|
    && forall i :: 0 <= i < |before| ==> after[i] == if i < n && Pending(before[i]) then Committed else before[i]
  }

  lemma DrivenStart(entries: seq<EntryStatus>)
    ensures Driven(entries, entries, 0)
  {
  }

  lemma DrivenNext(start: seq<EntryStatus>, before: seq<EntryStatus>, after: seq<EntryStatus>, i: nat)
    requires Driven(start, before, i) && i < |start| && start[i..] == before[i..]
    requires after == if Pending(before[i]) then before[i := Committed] else before
    ensures Driven(start, after, i + 1) && before[i] == start[i] && start[i + 1..] == after[i + 1..]
  {
    assert start[i..][0] == before[i..][0];
  }

  /** Workers' moves do not change what reconciling would read off any account. */
  ghost predicate SameReading(before: Chain, after: Chain) {
    forall i: nat :: Reconciled(after, i) == Reconciled(before, i)
  }

  lemma MoveKeepsReading(before: Chain, chain: Chain, i: nat, to: JobStatus)
    requires SameReading(before, chain) && WorkerMove(chain, i, to)
    ensures SameReading(before, chain[i := to])
  {
  }

  /** What reconciling the entries below `n` makes of them: of the pending ones, those without an account are
      planned, those whose job awaits its artifact opened, the others committed. */
  ghost predicate Read(before: seq<EntryStatus>, after: seq<EntryStatus>, chain: Chain, n: nat) {
    && |after| == |before|
    && forall i :: 0 <= i < |before| ==>
         after[i] == if i >= n || before[i] !in {Planned, Opened} then before[i]
                     else if i !in chain then Planned else if chain[i] == AwaitingArtifact then Opened else Committed
  }

  lemma ReadLater(before: seq<EntryStatus>, after: seq<EntryStatus>, chain: Chain, later: Chain, n: nat)
    requires Read(before, after, chain, n) && SameReading(chain, later)
    ensures Read(before, after, later, n)
  {
    forall i | 0 <= i < |before|
      ensures after[i] == if i >= n || before[i] !in {Planned, Opened} then before[i]
                          else if i !in later then Planned else if later[i] == AwaitingArtifact then Opened else Committed
    {
      assert Reconciled(later, i) == Reconciled(chain, i);
    }
  }

  lemma ReadNext(start: seq<EntryStatus>, before: seq<EntryStatus>, after: seq<EntryStatus>, chain: Chain, i: nat)
    requires Read(start, before, chain, i) && i < |start|
    requires after == if Pending(before[i]) then before[i := Reconciled(chain, i)] else before
    ensures Read(start, after, chain, i + 1)
  {
  }

  lemma ReadInStep(before: seq<EntryStatus>, after: seq<EntryStatus>, chain: Chain)
    requires Read(before, after, chain, |before|)
    ensures InStep(after, chain, 0)
  {
  }

  ghost predicate ReadAt(trace: seq<World>, from: nat, before: seq<EntryStatus>, after: seq<EntryStatus>) {
    exists k :: from <= k < |trace| && Read(before, after, trace[k].chain, |before|)
  }

  lemma ReadAtLater(trace: seq<World>, from: nat, earlier: nat, before: seq<EntryStatus>, after: seq<EntryStatus>)
    requires ReadAt(trace, from, before, after) && earlier <= from
    ensures ReadAt(trace, earlier, before, after)
  {
  }

  lemma ReadKeeps(before: seq<EntryStatus>, after: seq<EntryStatus>, chain: Chain)
    requires Read(before, after, chain, |before|)
    ensures SameKept(before, after)
  {
  }

  /** The account of the entry is as the transaction needs it: none to open, one awaiting its artifact to commit,
      one not yet taken to cancel. */
  predicate Fits(chain: Chain, kind: TxKind, i: nat) {
    match kind
    case OpenJob => i !in chain
    case CommitInput => i in chain && chain[i] == AwaitingArtifact
    case CancelOpen => i in chain && chain[i] in {AwaitingArtifact, JobOpen}
  }

  /** The status a landed transaction leaves. */
  function StatusAfter(kind: TxKind): JobStatus {
    match kind
    case OpenJob => AwaitingArtifact
    case CommitInput => JobOpen
    case CancelOpen => JobCancelled
  }

  lemma CancelledStatus(kind: TxKind)
    requires kind == CancelOpen
    ensures StatusAfter(kind) == JobCancelled
  {
  }

  /** Every pending entry from `n` on is where the chain says: planned without an account, opened with one that
      awaits its artifact. */
  ghost predicate InStep(entries: seq<EntryStatus>, chain: Chain, n: nat) {
    forall i :: n <= i < |entries| ==>
      && (entries[i] == Planned ==> i !in chain)
      && (entries[i] == Opened ==> i in chain && chain[i] == AwaitingArtifact)
  }

  // ----- what a command saw and sent

  function AccountOf(chain: Chain, i: nat): Option<JobStatus> {
    if i in chain then Some(chain[i]) else None
  }

  /** At some point of the trace from `from` on, the account of entry `i` was `job`. */
  ghost predicate Seen(trace: seq<World>, from: nat, i: nat, job: Option<JobStatus>) {
    exists k :: from <= k < |trace| && AccountOf(trace[k].chain, i) == job
  }

  lemma SeenLater(trace: seq<World>, longer: seq<World>, from: nat, earlier: nat, i: nat, job: Option<JobStatus>)
    requires Seen(trace, from, i, job) && trace <= longer && earlier <= from
    ensures Seen(longer, earlier, i, job)
  {
    var k :| from <= k < |trace| && AccountOf(trace[k].chain, i) == job;
    assert longer[k] == trace[k];
  }

  lemma SeenNow(trace: seq<World>, from: nat, i: nat)
    requires from < |trace| && i !in trace[|trace| - 1].chain
    ensures Seen(trace, from, i, None)
  {
    assert AccountOf(trace[|trace| - 1].chain, i) == None;
  }

  /** The accounts of the entries below `n` were each seen to be absent. */
  ghost predicate AllAbsent(trace: seq<World>, from: nat, n: nat) {
    forall i :: 0 <= i < n ==> Seen(trace, from, i, None)
  }

  predicate NoneBelow(chain: Chain, n: nat) {
    forall i :: 0 <= i < n ==> i !in chain
  }

  lemma AbsentNow(trace: seq<World>, from: nat, n: nat)
    requires from < |trace| && NoneBelow(trace[|trace| - 1].chain, n)
    ensures AllAbsent(trace, from, n)
  {
    forall i | 0 <= i < n ensures Seen(trace, from, i, None) {
      SeenNow(trace, from, i);
    }
  }

  lemma AbsentLater(trace: seq<World>, longer: seq<World>, from: nat, earlier: nat, n: nat)
    requires AllAbsent(trace, from, n) && trace <= longer && earlier <= from
    ensures AllAbsent(longer, earlier, n)
  {
    forall i | 0 <= i < n ensures Seen(longer, earlier, i, None) {
      SeenLater(trace, longer, from, earlier, i, None);
    }
  }

  /** A branch was collected: its job was seen settled, or, with the flag, completed while attested; and it
      carries its receipt. */
  ghost predicate Collected(trace: seq<World>, from: nat, allowCompleted: bool, attested: nat -> bool, carriesReceipt: nat -> bool, i: nat) {
    && (Seen(trace, from, i, Some(Settled)) || (allowCompleted && attested(i) && Seen(trace, from, i, Some(Completed))))
    && carriesReceipt(i)
  }

  ghost predicate CollectedBelow(trace: seq<World>, from: nat, allowCompleted: bool, attested: nat -> bool, carriesReceipt: nat -> bool, n: nat) {
    forall i :: 0 <= i < n ==> Collected(trace, from, allowCompleted, attested, carriesReceipt, i)
  }

  lemma CollectedOneLater(trace: seq<World>, longer: seq<World>, from: nat, mid: nat, allowCompleted: bool, attested: nat -> bool,
                          carriesReceipt: nat -> bool, i: nat)
    requires Collected(trace, mid, allowCompleted, attested, carriesReceipt, i) && trace <= longer && from <= mid
    ensures Collected(longer, from, allowCompleted, attested, carriesReceipt, i)
  {
    if Seen(trace, mid, i, Some(Settled)) {
      SeenLater(trace, longer, mid, from, i, Some(Settled));
    } else {
      SeenLater(trace, longer, mid, from, i, Some(Completed));
    }
  }

  lemma CollectedLater(trace: seq<World>, longer: seq<World>, from: nat, mid: nat, allowCompleted: bool, attested: nat -> bool,
                       carriesReceipt: nat -> bool, n: nat)
    requires CollectedBelow(trace, mid, allowCompleted, attested, carriesReceipt, n) && trace <= longer && from <= mid
    ensures CollectedBelow(longer, from, allowCompleted, attested, carriesReceipt, n)
  {
    hide Collected;
    forall i | 0 <= i < n ensures Collected(longer, from, allowCompleted, attested, carriesReceipt, i) {
      CollectedOneLater(trace, longer, from, mid, allowCompleted, attested, carriesReceipt, i);
    }
  }

  lemma CollectedNext(trace: seq<World>, longer: seq<World>, from: nat, mid: nat, allowCompleted: bool, attested: nat -> bool,
                      carriesReceipt: nat -> bool, n: nat)
    requires CollectedBelow(trace, from, allowCompleted, attested, carriesReceipt, n) && trace <= longer && from <= mid
    requires Collected(longer, mid, allowCompleted, attested, carriesReceipt, n)
    ensures CollectedBelow(longer, from, allowCompleted, attested, carriesReceipt, n + 1)
  {
    CollectedLater(trace, longer, from, from, allowCompleted, attested, carriesReceipt, n);
    CollectedOneLater(longer, longer, from, mid, allowCompleted, attested, carriesReceipt, n);
    hide Collected;
  }

  lemma NothingCollected(trace: seq<World>, from: nat, allowCompleted: bool, attested: nat -> bool, carriesReceipt: nat -> bool)
    ensures CollectedBelow(trace, from, allowCompleted, attested, carriesReceipt, 0)
  {
  }

  /** The branch can be collected as it stands. */
  predicate ReadyFor(chain: Chain, allowCompleted: bool, attested: nat -> bool, carriesReceipt: nat -> bool, i: nat) {
    i in chain && (chain[i] == Settled || (allowCompleted && chain[i] == Completed && attested(i))) && carriesReceipt(i)
  }

  predicate AllReady(chain: Chain, allowCompleted: bool, attested: nat -> bool, carriesReceipt: nat -> bool, n: nat) {
    forall i :: 0 <= i < n ==> ReadyFor(chain, allowCompleted, attested, carriesReceipt, i)
  }

  /** No branch entry is pending, and the aggregate has no account. */
  ghost predicate Unbound(entries: seq<EntryStatus>, chain: Chain) {
    |entries| > 0 && |entries| - 1 !in chain && forall i :: 0 <= i < |entries| - 1 ==> entries[i] !in {Planned, Opened}
  }

  /** There is an aggregate entry left to bind. */
  predicate Bindable(disk: Option<Run>) {
    disk.Some? && disk.value.entries != [] && disk.value.entries[|disk.value.entries| - 1] in {Deferred, Planned, Opened}
  }

  /** The transactions of a drive that lacks nothing else: for each entry below `n`, one per missing step. */
  function Missing(cmd: Command, entries: seq<EntryStatus>, n: nat): seq<Tx>
    requires n <= |entries|
  {
    if n == 0 then []
    else Missing(cmd, entries, n - 1) + MissingOf(cmd, entries[n - 1], n - 1)
  }

  function MissingOf(cmd: Command, entry: EntryStatus, i: nat): seq<Tx> {
    match entry
    case Planned => [Tx(OpenJob, i, cmd, true, true), Tx(CommitInput, i, cmd, true, true)]
    case Opened => [Tx(CommitInput, i, cmd, true, true)]
    case _ => []
  }

  lemma MissingStart(cmd: Command, entries: seq<EntryStatus>)
    ensures Missing(cmd, entries, 0) == []
  {
  }

  lemma MissingNext(cmd: Command, entries: seq<EntryStatus>, n: nat)
    requires n < |entries|
    ensures Missing(cmd, entries, n + 1) == Missing(cmd, entries, n) + MissingOf(cmd, entries[n], n)
  {
  }

  lemma MissingEnds(cmd: Command, entries: seq<EntryStatus>)
    requires entries != [] && entries[|entries| - 1] == Planned
    ensures Missing(cmd, entries, |entries|) != []
  {
  }

  /** What opening sends: for each branch in order, its job opened and its input committed, both accepted. */
  ghost predicate Opens(before: seq<Tx>, after: seq<Tx>, branches: nat) {
    && before <= after && |after| == |before| + 2 * branches
    && forall i :: 0 <= i < branches ==>
         && after[|before| + 2 * i] == Tx(OpenJob, i, PredictOpen, true, true)
         && after[|before| + 2 * i + 1] == Tx(CommitInput, i, PredictOpen, true, true)
  }

  lemma DrivenFresh(after: seq<EntryStatus>, branches: nat)
    requires Driven(FreshRun(branches).entries, after, |FreshRun(branches).entries|)
    ensures after == seq(branches, i => Committed) + [Deferred]
  {
  }

  lemma {:induction false} MissingOfPlanned(entries: seq<EntryStatus>, n: nat)
    requires n <= |entries| && forall i :: 0 <= i < n ==> entries[i] == Planned
    ensures Opens([], Missing(PredictOpen, entries, n), n)
  {
    if n > 0 {
      MissingOfPlanned(entries, n - 1);
    }
  }

  lemma MissingOfFresh(branches: nat)
    ensures forall before: seq<Tx> :: Opens(before, before + Missing(PredictOpen, FreshRun(branches).entries, |FreshRun(branches).entries|), branches)
  {
    var entries := FreshRun(branches).entries;
    MissingOfPlanned(entries, branches);
    assert Missing(PredictOpen, entries, |entries|) == Missing(PredictOpen, entries, branches) + [];
  }

  /** One landed cancellation for each job found awaiting its artifact or open. */
  function Cancellations(found: seq<Option<JobStatus>>): seq<Tx> {
    if found == [] then []
    else
      var i := |found| - 1;
      Cancellations(found[..i]) + if found[i] in {Some(AwaitingArtifact), Some(JobOpen)} then [Tx(CancelOpen, i, PredictCancel, true, true)] else []
  }

  /** What cancelling makes of an entry: a job that was found awaiting its artifact or open is cancelled, so is
      an entry not yet on chain, and a job someone works on is left alone. */
  ghost predicate EntryCancelled(before: EntryStatus, job: Option<JobStatus>, after: EntryStatus) {
    match job
    case None => after == if before in {Planned, Opened, Deferred} then Cancelled else before
    case Some(status) => after == if status in {AwaitingArtifact, JobOpen} then Cancelled else before
  }

  /** What a cancelling command did to the entries below `n`, in the trace from `from` on: every account was
      read; and every job was seen neither awaiting its artifact nor open. */
  ghost predicate CancelledBelow(trace: seq<World>, from: nat, before: seq<EntryStatus>, after: seq<EntryStatus>, found: seq<Option<JobStatus>>, n: nat) {
    && |after| == |before| && |found| == n <= |before|
    && (forall i :: n <= i < |before| ==> after[i] == before[i])
    && forall i :: 0 <= i < n ==>
         && Seen(trace, from, i, found[i]) && EntryCancelled(before[i], found[i], after[i])
         && Retired(trace, from, i)
  }

  ghost predicate Retired(trace: seq<World>, from: nat, i: nat) {
    exists k :: from <= k < |trace| && (i !in trace[k].chain || trace[k].chain[i] !in {AwaitingArtifact, JobOpen})
  }

  lemma RetiredLater(trace: seq<World>, longer: seq<World>, from: nat, i: nat)
    requires from < |trace| && trace <= longer
    requires var chain := trace[|trace| - 1].chain; i !in chain || chain[i] !in {AwaitingArtifact, JobOpen}
    ensures Retired(longer, from, i)
  {
    assert longer[|trace| - 1] == trace[|trace| - 1];
  }

  lemma RetiredEarlier(trace: seq<World>, from: nat, earlier: nat, i: nat)
    requires Retired(trace, from, i) && earlier <= from
    ensures Retired(trace, earlier, i)
  {
  }

  lemma SeenAtEnd(trace: seq<World>, longer: seq<World>, from: nat, i: nat)
    requires from < |trace| && trace <= longer
    ensures Seen(longer, from, i, AccountOf(trace[|trace| - 1].chain, i))
  {
    assert longer[|trace| - 1] == trace[|trace| - 1];
  }

  lemma CancelledLater(trace: seq<World>, longer: seq<World>, from: nat, mid: nat, before: seq<EntryStatus>, after: seq<EntryStatus>,
                       found: seq<Option<JobStatus>>, n: nat)
    requires CancelledBelow(trace, mid, before, after, found, n) && trace <= longer && from <= mid
    ensures CancelledBelow(longer, from, before, after, found, n)
  {
    forall i | 0 <= i < n ensures Seen(longer, from, i, found[i]) && Retired(longer, from, i) {
      SeenLater(trace, longer, mid, from, i, found[i]);
      var k :| mid <= k < |trace| && (i !in trace[k].chain || trace[k].chain[i] !in {AwaitingArtifact, JobOpen});
      assert longer[k] == trace[k];
    }
  }

  lemma CancelledStart(trace: seq<World>, from: nat, entries: seq<EntryStatus>)
    ensures CancelledBelow(trace, from, entries, entries, [], 0)
  {
  }

  lemma CancellationsNext(found: seq<Option<JobStatus>>, job: Option<JobStatus>)
    ensures Cancellations(found + [job]) == Cancellations(found)
            + if job in {Some(AwaitingArtifact), Some(JobOpen)} then [Tx(CancelOpen, |found|, PredictCancel, true, true)] else []
  {
    assert (found + [job])[..|found|] == found;
  }

  lemma CancelledNext(trace: seq<World>, longer: seq<World>, from: nat, mid: nat, start: seq<EntryStatus>, before: seq<EntryStatus>,
                      after: seq<EntryStatus>, found: seq<Option<JobStatus>>, job: Option<JobStatus>, n: nat)
    requires CancelledBelow(trace, from, start, before, found, n) && n < |start| && trace <= longer && from <= mid
    requires Seen(longer, mid, n, job) && Retired(longer, mid, n)
    requires |after| == |before| && EntryCancelled(before[n], job, after[n])
    requires forall i :: 0 <= i < |before| && i != n ==> after[i] == before[i]
    ensures CancelledBelow(longer, from, start, after, found + [job], n + 1)
  {
    CancelledLater(trace, longer, from, from, start, before, found, n);
    SeenLater(longer, longer, mid, from, n, job);
    var k :| mid <= k < |longer| && (n !in longer[k].chain || longer[k].chain[n] !in {AwaitingArtifact, JobOpen});
  }

  class Session {
    const world: nat -> Turn
    var turns: nat
    /** The saved manifest and the job accounts. */
    var disk: Option<Run>
    var chain: Chain
    /** The manifest the running command holds. */
    var run: Run
    ghost var trace: seq<World>

    ghost predicate Valid()
      reads this
    {
      History(trace) && Now().disk == disk && Now().chain == chain
    }

    ghost function Now(): World
      reads this
    {
      if trace == [] then World(None, map[], [], false, Idle) else trace[|trace| - 1]
    }

    /** From turn `from` on nothing goes wrong: no worker moves, the command is not killed, every transaction is
        delivered and answered. */
    ghost predicate Calm(from: nat) {
      forall t :: from <= t ==> world(t).moves == [] && !world(t).killed && world(t).delivered && world(t).answered
    }

    lemma CalmStays(from: nat, later: nat)
      requires from <= later
      ensures Calm(from) ==> Calm(later)
    {
    }

    /** No manifest is saved; the chain may hold any accounts. */
    constructor (world: nat -> Turn, chain: Chain)
      ensures Valid() && Now().proc == Idle && disk == None && this.chain == chain
    {
      this.world := world;
      this.turns := 0;
      this.disk := None;
      this.chain := chain;
      this.run := Run(Opening, []);
      this.trace := [World(None, chain, [], false, Idle)];
    }

    ghost method Record(w': World)
      requires History(trace) && Next(Now(), w')
      modifies this`trace
      ensures trace == old(trace) + [w'] && History(trace) && Now() == w'
    {
      hide Next;
      HistoryExtends(trace, w');
      trace := trace + [w'];
    }

    /** Workers move before a call of the command is served. */
    method TakeTurn() returns (turn: Turn)
      requires Valid()
      modifies this`turns, this`chain, this`trace
      ensures Valid() && old(trace) <= trace && SameReading(old(chain), chain)
      ensures Now() == old(Now()).(chain := chain)
      ensures turns == old(turns) + 1 && turn == world(old(turns)) && (turn.moves == [] ==> chain == old(chain))
    {
      turn := world(turns);
      turns := turns + 1;
      for k := 0 to |turn.moves|
        invariant Valid() && old(trace) <= trace && SameReading(old(chain), chain)
        invariant Now() == old(Now()).(chain := chain) && (k == 0 ==> chain == old(chain)) && turns == old(turns) + 1
      {
        var move := turn.moves[k];
        if WorkerMove(chain, move.entry, move.to) {
          MoveKeepsReading(old(chain), chain, move.entry, move.to);
          ghost var w' := Now().(chain := chain[move.entry := move.to]);
          assert Work(Now(), w', move.entry, move.to);
          Record(w');
          chain := chain[move.entry := move.to];
        }
      }
    }

    /** The command ends without finishing: it was killed, or it refused. */
    ghost method Stop()
      requires Valid()
      modifies this`trace
      ensures Valid() && old(trace) <= trace && Now() == old(Now()).(proc := Idle)
    {
      assert Crash(Now(), Now().(proc := Idle));
      Record(Now().(proc := Idle));
    }

    /** `fetch_job`: the account behind an entry, as the command sees it. */
    method FetchJob(i: nat) returns (ok: bool, job: Option<JobStatus>)
      requires Valid()
      modifies this`turns, this`chain, this`trace
      ensures Valid() && old(trace) <= trace && SameReading(old(chain), chain)
      ensures Now() == if ok then old(Now()).(chain := chain) else old(Now()).(chain := chain, proc := Idle)
      ensures ok ==> job == if i in chain then Some(chain[i]) else None
      ensures turns >= old(turns) && (Calm(old(turns)) ==> ok && chain == old(chain))
    {
      hide History, Next;
      var turn := TakeTurn();
      if turn.killed {
        Stop();
        return false, None;
      }
      return true, if i in chain then Some(chain[i]) else None;
    }

    /** `sign_and_send`: one transaction is sent; on success it was accepted, landed and is confirmed, otherwise
        the command does not know. */
    method SignAndSend(kind: TxKind, i: nat, sender: Command, ghost confirmed: Proc) returns (ok: bool, ghost tx: Tx)
      requires Valid() && Sends(Now().proc, kind, i, sender, confirmed)
      modifies this`turns, this`chain, this`trace
      ensures Valid() && old(trace) <= trace && turns >= old(turns)
      ensures Now().log == old(Now().log) + [tx] && tx.kind == kind && tx.entry == i && tx.sender == sender
      ensures ok ==> tx.valid && tx.landed && Now().proc == confirmed && i in chain && chain[i] == StatusAfter(kind)
      ensures !ok ==> Now().proc == Idle
      ensures Calm(old(turns)) && Fits(old(chain), kind, i) ==> ok && chain == old(chain)[i := StatusAfter(kind)]
    {
      hide Next, Sends, History, Fits, StatusAfter;
      var turn := TakeTurn();
      ok, tx := Deliver(turn, kind, i, sender, confirmed);
    }

    method Deliver(turn: Turn, kind: TxKind, i: nat, sender: Command, ghost confirmed: Proc) returns (ok: bool, ghost tx: Tx)
      requires Valid() && Sends(Now().proc, kind, i, sender, confirmed)
      modifies this`chain, this`trace
      ensures Valid() && old(trace) <= trace
      ensures Now().log == old(Now().log) + [tx] && tx.kind == kind && tx.entry == i && tx.sender == sender
      ensures ok ==> tx.valid && tx.landed && Now().proc == confirmed && chain == old(chain)[i := StatusAfter(kind)]
      ensures !ok ==> Now().proc == Idle
      ensures Fits(old(chain), kind, i) && turn.delivered && turn.answered && !turn.killed ==> ok
    {
      hide Next, Sends, History, Accepts, Effect, Fits, StatusAfter;
      EffectFits(chain, kind, i);
      ok := turn.delivered && Accepts(chain, kind, i) && turn.answered && !turn.killed;
      SendingIsAStep(Now(), kind, i, sender, confirmed, if ok then confirmed else Idle);
      if turn.delivered && Accepts(chain, kind, i) {
        Record(Landed(Now(), kind, i, sender, if ok then confirmed else Idle));
        chain := Effect(chain, kind, i);
      } else {
        Record(Lost(Now(), kind, i, sender));
      }
      tx := Now().log[|Now().log| - 1];
    }

    /** `save_run_manifest`: the whole manifest is replaced, or the command dies before it is. */
    method SaveRun(ghost next: Proc) returns (ok: bool)
      requires Valid() && Saves(Now().proc, run, next)
      modifies this`turns, this`chain, this`disk, this`trace
      ensures Valid() && old(trace) <= trace && Now().log == old(Now().log)
      ensures ok ==> Now().proc == next && disk == Some(run)
      ensures !ok ==> Now().proc == Idle && disk == old(disk)
      ensures turns >= old(turns) && (Calm(old(turns)) ==> ok && chain == old(chain))
    {
      hide History, Next;
      var turn := TakeTurn();
      if turn.killed {
        Stop();
        return false;
      }
      SavingIsAStep(Now(), run, next);
      Record(Saved(Now(), run, next));
      disk := Some(run);
      return true;
    }

    /** `_drive_run_open`.  If nothing fails, every pending entry is committed, the others are untouched, the
        saved manifest says so, and what was sent is one transaction per missing step, entry by entry. */
    method DriveRunOpen(cmd: Command) returns (ok: bool)
      requires Valid() && Now().proc == Drive(cmd, 0, run)
      modifies this
      ensures Valid() && old(trace) <= trace && Now().proc == Idle
      ensures ok ==> disk == Some(run) && run.status == Open && Driven(old(run.entries), run.entries, |old(run.entries)|)
      ensures ok ==> Now().log == old(Now().log) + Missing(cmd, old(run.entries), |old(run.entries)|)
      ensures turns >= old(turns) && (Calm(old(turns)) && InStep(old(run.entries), old(chain), 0) ==> ok)
    {
      hide History, Next;
      ok := DriveEntries(cmd);
      if ok {
        DriveGoesOn(Now(), cmd, |run.entries|, run, SaveRunOpen(run.(status := Open)));
        Record(Now().(proc := SaveRunOpen(run.(status := Open))));
        run := run.(status := Open);
        ok := SaveRun(Idle);
      }
    }

    /** The loop over the entries. */
    method DriveEntries(cmd: Command) returns (ok: bool)
      requires Valid() && Now().proc == Drive(cmd, 0, run)
      modifies this
      ensures Valid() && old(trace) <= trace && (!ok ==> Now().proc == Idle)
      ensures ok ==> Now().proc == Drive(cmd, |run.entries|, run) && Driven(old(run.entries), run.entries, |old(run.entries)|)
      ensures ok ==> Now().log == old(Now().log) + Missing(cmd, old(run.entries), |old(run.entries)|)
      ensures turns >= old(turns) && (Calm(old(turns)) && InStep(old(run.entries), old(chain), 0) ==> ok)
    {
      hide History, Next, Driven, Missing, MissingOf;
      var n := |run.entries|;
      ghost var start := run;
      ok := true;
      DrivenStart(start.entries);
      MissingStart(cmd, start.entries);
      for i := 0 to n
        invariant Valid() && old(trace) <= trace && Now().proc == Drive(cmd, i, run) && ok
        invariant Driven(start.entries, run.entries, i) && |run.entries| == |start.entries| == n && run.entries[i..] == start.entries[i..]
        invariant Now().log == old(Now().log) + Missing(cmd, start.entries, i)
        invariant turns >= old(turns) && (Calm(old(turns)) && InStep(start.entries, old(chain), 0) ==> InStep(start.entries, chain, i))
      {
        ghost var before := run.entries;
        ok := DriveEntry(cmd, i);
        if !ok {
          return;
        }
        DrivenNext(start.entries, before, run.entries, i);
        MissingNext(cmd, start.entries, i);
      }
    }

    /** One entry of the drive: open it if planned, then commit its input if opened, saving after each. */
    method DriveEntry(cmd: Command, i: nat) returns (ok: bool)
      requires Valid() && Now().proc == Drive(cmd, i, run) && i < |run.entries|
      modifies this
      ensures Valid() && old(trace) <= trace
      ensures !ok ==> Now().proc == Idle
      ensures ok ==> Now().proc == Drive(cmd, i + 1, run)
      ensures ok ==> run == if Pending(old(run.entries[i])) then SetEntry(old(run), i, Committed) else old(run)
      ensures ok ==> Now().log == old(Now().log) + MissingOf(cmd, old(run.entries[i]), i)
      ensures turns >= old(turns) && (Calm(old(turns)) && InStep(old(run.entries), old(chain), i) ==> ok && InStep(old(run.entries), chain, i + 1))
    {
      hide History, Next;
      ghost var start := run.entries;
      if !Pending(run.entries[i]) {
        DriveGoesOn(Now(), cmd, i, run, Drive(cmd, i + 1, run));
        Record(Now().(proc := Drive(cmd, i + 1, run)));
        return true;
      }
      if run.entries[i] == Planned {
        ok := OpenEntry(cmd, i);
        if !ok {
          return;
        }
      }
      ok := CommitEntry(cmd, i);
      assert start[i := Opened][i := Committed] == start[i := Committed];
    }

    method OpenEntry(cmd: Command, i: nat) returns (ok: bool)
      requires Valid() && Now().proc == Drive(cmd, i, run) && i < |run.entries| && run.entries[i] == Planned
      modifies this
      ensures Valid() && old(trace) <= trace
      ensures !ok ==> Now().proc == Idle
      ensures ok ==> run == SetEntry(old(run), i, Opened) && Now().proc == Drive(cmd, i, run) && Now().log == old(Now().log) + [Tx(OpenJob, i, cmd, true, true)]
      ensures turns >= old(turns)
      ensures Calm(old(turns)) && Fits(old(chain), OpenJob, i) ==> ok && chain == old(chain)[i := AwaitingArtifact]
    {
      hide History, Next;
      ghost var tx;
      ok, tx := SignAndSend(OpenJob, i, cmd, SaveOpened(cmd, i, SetEntry(run, i, Opened)));
      if ok {
        run := SetEntry(run, i, Opened);
        ok := SaveRun(Drive(cmd, i, run));
      }
    }

    method CommitEntry(cmd: Command, i: nat) returns (ok: bool)
      requires Valid() && Now().proc == Drive(cmd, i, run) && i < |run.entries| && run.entries[i] == Opened
      modifies this
      ensures Valid() && old(trace) <= trace
      ensures !ok ==> Now().proc == Idle
      ensures ok ==> run == SetEntry(old(run), i, Committed) && Now().proc == Drive(cmd, i + 1, run) && Now().log == old(Now().log) + [Tx(CommitInput, i, cmd, true, true)]
      ensures turns >= old(turns)
      ensures Calm(old(turns)) && Fits(old(chain), CommitInput, i) ==> ok && chain == old(chain)[i := JobOpen]
    {
      hide History, Next;
      ghost var tx;
      ok, tx := SignAndSend(CommitInput, i, cmd, SaveCommitted(cmd, i, SetEntry(run, i, Committed)));
      if ok {
        run := SetEntry(run, i, Committed);
        ok := SaveRun(Drive(cmd, i + 1, run));
      }
    }

    // ----- reconcile and resume

    /** `_reconcile_run_with_chain`: each pending entry takes the status its job account shows. */
    method ReconcileRun() returns (ok: bool)
      requires Valid() && Now().proc == Reconcile(0, run)
      modifies this
      ensures Valid() && old(trace) <= trace && Now().log == old(Now().log)
      ensures !ok ==> Now().proc == Idle
      ensures ok ==> Now().proc == SaveReconciled(run) && run.status == old(run.status)
      ensures ok ==> Read(old(run.entries), run.entries, chain, |old(run.entries)|)
      ensures turns >= old(turns) && (Calm(old(turns)) ==> ok && chain == old(chain))
    {
      hide History, Next;
      var n := |run.entries|;
      ghost var start := run;
      for i := 0 to n
        invariant Valid() && old(trace) <= trace && Now().log == old(Now().log)
        invariant Now().proc == Reconcile(i, run) && run.status == start.status
        invariant Read(start.entries, run.entries, chain, i)
        invariant turns >= old(turns) && (Calm(old(turns)) ==> chain == old(chain))
      {
        ghost var before, seen := run.entries, chain;
        ok := ReconcileEntry(i);
        if !ok {
          return;
        }
        ReadLater(start.entries, before, seen, chain, i);
        ReadNext(start.entries, before, run.entries, chain, i);
      }
      ReconcileGoesOn(Now(), |run.entries|, run, SaveReconciled(run));
      Record(Now().(proc := SaveReconciled(run)));
      return true;
    }

    method ReconcileEntry(i: nat) returns (ok: bool)
      requires Valid() && Now().proc == Reconcile(i, run) && i < |run.entries|
      modifies this
      ensures Valid() && old(trace) <= trace && Now().log == old(Now().log)
      ensures !ok ==> Now().proc == Idle
      ensures ok ==> Now().proc == Reconcile(i + 1, run) && SameReading(old(chain), chain)
      ensures ok ==> run == if Pending(old(run.entries[i])) then SetEntry(old(run), i, Reconciled(chain, i)) else old(run)
      ensures turns >= old(turns) && (Calm(old(turns)) ==> ok && chain == old(chain))
    {
      hide History, Next;
      if Pending(run.entries[i]) {
        var job: Option<JobStatus>;
        ok, job := FetchJob(i);
        if !ok {
          return;
        }
        var status := match job
                      case None => Planned
                      case Some(found) => if found == AwaitingArtifact then Opened else Committed;
        ReconcileGoesOn(Now(), i, run, Reconcile(i + 1, SetEntry(run, i, status)));
        Record(Now().(proc := Reconcile(i + 1, SetEntry(run, i, status))));
        run := SetEntry(run, i, status);
      } else {
        ReconcileGoesOn(Now(), i, run, Reconcile(i + 1, run));
        Record(Now().(proc := Reconcile(i + 1, run)));
      }
      return true;
    }

    /** `predict resume`.  When it succeeds the run it found is complete, and what was sent is what the
        accounts, as they stood at one point of the command, lacked. */
    method ResumeRun() returns (ok: bool, ghost reconciled: seq<EntryStatus>)
      requires Valid() && Now().proc == Idle
      modifies this
      ensures Valid() && old(trace) <= trace && Now().proc == Idle && NeverAhead(disk, chain)
      ensures ok ==> old(disk).Some? && old(disk).value.status == Opening && Complete(old(disk).value, disk)
      ensures ok ==> ReadAt(trace, |old(trace)|, old(disk).value.entries, reconciled)
                     && Now().log == old(Now().log) + Missing(PredictResume, reconciled, |reconciled|)
      ensures old(disk).None? || old(disk).value.status != Opening ==> !ok && trace == old(trace)
      ensures Calm(old(turns)) && old(disk).Some? && old(disk).value.status == Opening ==> ok
    {
      hide History, Next;
      ReachedNeverAhead(trace);
      reconciled := [];
      if disk.None? || disk.value.status != Opening {
        return false, reconciled;
      }
      BeginResume();
      ghost var from := |trace| - 1;
      hide ReadAt, Complete, Missing, Read;
      ok, reconciled := ReconcileAndDrive();
      if ok {
        ReadAtLater(trace, from, |old(trace)|, old(disk).value.entries, reconciled);
      }
      ReachedNeverAhead(trace);
    }

    method ReconcileAndDrive() returns (ok: bool, ghost reconciled: seq<EntryStatus>)
      requires Valid() && Now().proc == Reconcile(0, run)
      modifies this
      ensures Valid() && old(trace) <= trace && Now().proc == Idle
      ensures ok ==> Complete(old(run), disk) && ReadAt(trace, |old(trace)| - 1, old(run).entries, reconciled)
      ensures ok ==> Now().log == old(Now().log) + Missing(PredictResume, reconciled, |reconciled|)
      ensures Calm(old(turns)) ==> ok
    {
      hide History, Next, Missing, Read;
      reconciled := [];
      ok := ReconcileRun();
      if ok {
        reconciled := run.entries;
        ghost var read := |trace| - 1;
        assert trace[read].chain == chain;
        ReadKeeps(old(run).entries, reconciled, chain);
        ReadInStep(old(run).entries, reconciled, chain);
        ok := SaveRun(Drive(PredictResume, 0, run));
        if ok {
          ok := DriveRunOpen(PredictResume);
          DrivenCompletes(old(run).entries, reconciled, run.entries);
          assert Read(old(run).entries, reconciled, trace[read].chain, |old(run).entries|);
        }
      }
    }

    method BeginResume()
      requires Valid() && Now().proc == Idle && disk.Some? && disk.value.status == Opening
      modifies this`run, this`trace
      ensures Valid() && old(trace) < trace && Some(run) == disk && Now() == old(Now()).(proc := Reconcile(0, run))
    {
      hide History;
      run := disk.value;
      assert StartResume(Now(), Now().(proc := Reconcile(0, run)));
      Record(Now().(proc := Reconcile(0, run)));
    }

    // ----- open

    /** `_assert_jobs_absent`: one call for all the accounts asked about. */
    method AssertJobsAbsent(cmd: Command, ghost next: Proc) returns (ok: bool)
      requires Valid() && Now().proc == AssertAbsent(cmd, run)
      requires (cmd == PredictOpen && next == SavePlan(run)) || (cmd == PredictBind && run.entries != [] && next == Drive(PredictBind, 0, run))
      modifies this`turns, this`chain, this`trace
      ensures Valid() && old(trace) <= trace && Now().log == old(Now().log)
      ensures Now().proc == if ok then next else Idle
      ensures ok ==> if cmd == PredictOpen then forall i :: 0 <= i < |run.entries| ==> i !in chain else |run.entries| - 1 !in chain
      ensures turns >= old(turns)
      ensures Calm(old(turns)) ==> chain == old(chain) && ok == if cmd == PredictOpen then NoneBelow(chain, |run.entries|) else |run.entries| - 1 !in chain
    {
      hide History;
      var turn := TakeTurn();
      if turn.killed {
        Stop();
        return false;
      }
      ok := if cmd == PredictOpen then forall i :: 0 <= i < |run.entries| ==> i !in chain else |run.entries| - 1 !in chain;
      ghost var w' := Now().(proc := if ok then next else Idle);
      assert CliStep(Now(), w');
      Record(w');
    }

    /** `predict open`: plan, check that no job account exists, save, drive.  Nothing is saved or sent unless
        every account, the aggregate's among them, was seen to be absent. */
    method OpenRun(branches: nat) returns (ok: bool)
      requires Valid() && Now().proc == Idle
      modifies this
      ensures Valid() && old(trace) <= trace && Now().proc == Idle && NeverAhead(disk, chain)
      ensures old(disk).Some? ==> !ok && disk == old(disk) && Now().log == old(Now().log)
      ensures disk != old(disk) || Now().log != old(Now().log) ==> AllAbsent(trace, |old(trace)|, branches + 1)
      ensures ok ==> disk == Some(Run(Open, seq(branches, i => Committed) + [Deferred]))
      ensures ok ==> Opens(old(Now().log), Now().log, branches)
      ensures Calm(old(turns)) && old(disk) == None && NoneBelow(old(chain), branches + 1) ==> ok
    {
      hide History, Next, Opens, AllAbsent, Driven;
      ReachedNeverAhead(trace);
      if disk.Some? {
        return false;
      }
      BeginOpen(branches);
      ghost var from := |trace| - 1;
      ok := SavePlanAndDrive();
      if disk != old(disk) || Now().log != old(Now().log) {
        AbsentLater(trace, trace, from, |old(trace)|, branches + 1);
      }
      if ok {
        MissingOfFresh(branches);
        DrivenFresh(run.entries, branches);
      }
      ReachedNeverAhead(trace);
    }

    method BeginOpen(branches: nat)
      requires Valid() && Now().proc == Idle && disk == None
      modifies this`run, this`trace
      ensures Valid() && old(trace) < trace && Now() == old(Now()).(proc := AssertAbsent(PredictOpen, run)) && run == FreshRun(branches)
    {
      hide History;
      run := FreshRun(branches);
      assert StartOpen(Now(), Now().(proc := AssertAbsent(PredictOpen, run)), branches);
      Record(Now().(proc := AssertAbsent(PredictOpen, run)));
    }

    method SavePlanAndDrive() returns (ok: bool)
      requires Valid() && Now().proc == AssertAbsent(PredictOpen, run)
      modifies this
      ensures Valid() && old(trace) <= trace && Now().proc == Idle
      ensures disk != old(disk) || Now().log != old(Now().log) ==>
                AllAbsent(trace, |old(trace)| - 1, |old(run.entries)|)
      ensures ok ==> disk == Some(run) && run.status == Open && Driven(old(run.entries), run.entries, |old(run.entries)|)
      ensures ok ==> Now().log == old(Now().log) + Missing(PredictOpen, old(run.entries), |old(run.entries)|)
      ensures Calm(old(turns)) && Fresh(old(run)) && NoneBelow(old(chain), |old(run.entries)|) ==> ok
    {
      hide History, Next;
      ok := AssertJobsAbsent(PredictOpen, SavePlan(run));
      if ok {
        ghost var checked, entries, from := trace, run.entries, |old(trace)| - 1;
        AbsentNow(checked, from, |entries|);
        ok := SaveRun(Drive(PredictOpen, 0, run));
        if ok {
          ok := DriveRunOpen(PredictOpen);
        }
        AbsentLater(checked, trace, from, from, |entries|);
      }
    }

    // ----- bind-aggregate

    /** `predict bind-aggregate`.  `allowCompleted` is the command's flag; `attested` and `carriesReceipt`
        say of each branch account what the receipt collection checks, and `reduces` whether the plan
        check and the reduction accept what was collected.  Nothing is saved unless every branch was collected
        and they do, and nothing is sent unless the aggregate's account was seen to be absent as well. */
    method BindAggregate(allowCompleted: bool, attested: nat -> bool, carriesReceipt: nat -> bool, reduces: bool) returns (ok: bool)
      requires Valid() && Now().proc == Idle
      modifies this
      ensures Valid() && old(trace) <= trace && Now().proc == Idle && NeverAhead(disk, chain)
      ensures disk != old(disk) || Now().log != old(Now().log) ==>
                && reduces && Bindable(old(disk))
                && CollectedBelow(trace, |old(trace)|, allowCompleted, attested, carriesReceipt, |old(disk).value.entries| - 1)
      ensures Now().log != old(Now().log) ==> Seen(trace, |old(trace)|, |old(disk).value.entries| - 1, None)
      ensures ok ==> disk == Some(run) && run.status == Open && Now().log != old(Now().log)
      ensures ok ==> var entries := old(disk).value.entries;
                     && Driven(entries[|entries| - 1 := Planned], run.entries, |entries|)
                     && Now().log == old(Now().log) + Missing(PredictBind, entries[|entries| - 1 := Planned], |entries|)
      ensures Calm(old(turns)) && reduces && Bindable(old(disk)) && Unbound(old(disk).value.entries, old(chain)) ==>
                AllReady(old(chain), allowCompleted, attested, carriesReceipt, |old(disk).value.entries| - 1) ==> ok
    {
      hide History, Next, CollectedBelow, Driven, Seen, Missing;
      ReachedNeverAhead(trace);
      if !Bindable(disk) {
        return false;
      }
      BeginBind();
      ghost var from, last := |trace| - 1, |run.entries| - 1;
      ok := CollectAndBind(allowCompleted, attested, carriesReceipt, reduces);
      if disk != old(disk) || Now().log != old(Now().log) {
        CollectedLater(trace, trace, |old(trace)|, from, allowCompleted, attested, carriesReceipt, last);
      }
      if Now().log != old(Now().log) {
        SeenLater(trace, trace, from, |old(trace)|, last, None);
      }
      if ok {
        MissingEnds(PredictBind, old(disk).value.entries[last := Planned]);
      }
      ReachedNeverAhead(trace);
    }

    method CollectAndBind(allowCompleted: bool, attested: nat -> bool, carriesReceipt: nat -> bool, reduces: bool) returns (ok: bool)
      requires Valid() && run.entries != [] && Now().proc == Collect(0, run)
      modifies this
      ensures Valid() && old(trace) <= trace && Now().proc == Idle
      ensures disk != old(disk) || Now().log != old(Now().log) ==>
                reduces && CollectedBelow(trace, |old(trace)| - 1, allowCompleted, attested, carriesReceipt, |old(run.entries)| - 1)
      ensures Now().log != old(Now().log) ==> Seen(trace, |old(trace)| - 1, |old(run.entries)| - 1, None)
      ensures ok ==> disk == Some(run) && run.status == Open
      ensures ok ==> var entries := old(run.entries)[|old(run.entries)| - 1 := Planned];
                     && Driven(entries, run.entries, |entries|)
                     && Now().log == old(Now().log) + Missing(PredictBind, entries, |entries|)
      ensures Calm(old(turns)) && reduces && Unbound(old(run.entries), old(chain)) ==>
                AllReady(old(chain), allowCompleted, attested, carriesReceipt, |old(run.entries)| - 1) ==> ok
    {
      hide History, Next, CollectedBelow, Driven, Seen, Missing;
      ok := CollectBranchReceipts(allowCompleted, attested, carriesReceipt);
      if ok && !reduces {
        Stop();
        return false;
      }
      if ok {
        ghost var collected, from, last := trace, |old(trace)| - 1, |run.entries| - 1;
        ok := BindCollected();
        CollectedLater(collected, trace, from, from, allowCompleted, attested, carriesReceipt, last);
        if Now().log != old(Now().log) {
          SeenLater(trace, trace, |collected| - 1, from, last, None);
        }
      }
    }

    method BeginBind()
      requires Valid() && Now().proc == Idle && Bindable(disk)
      modifies this`run, this`trace
      ensures Valid() && old(trace) < trace && Some(run) == disk && Now() == old(Now()).(proc := Collect(0, run))
    {
      hide History;
      run := disk.value;
      assert StartBind(Now(), Now().(proc := Collect(0, run)));
      Record(Now().(proc := Collect(0, run)));
    }

    /** `_collect_branch_receipts`: every branch settled, or completed and attested under the flag. */
    method CollectBranchReceipts(allowCompleted: bool, attested: nat -> bool, carriesReceipt: nat -> bool) returns (ok: bool)
      requires Valid() && run.entries != [] && Now().proc == Collect(0, run)
      modifies this`turns, this`chain, this`trace
      ensures Valid() && old(trace) <= trace && Now().log == old(Now().log)
      ensures Now().proc == if ok then Collect(|run.entries| - 1, run) else Idle
      ensures ok ==> CollectedBelow(trace, |old(trace)| - 1, allowCompleted, attested, carriesReceipt, |run.entries| - 1)
      ensures turns >= old(turns) && (Calm(old(turns)) ==> chain == old(chain))
      ensures Calm(old(turns)) && AllReady(old(chain), allowCompleted, attested, carriesReceipt, |run.entries| - 1) ==> ok
    {
      hide History, CollectedBelow;
      var n := |run.entries| - 1;
      NothingCollected(trace, |trace| - 1, allowCompleted, attested, carriesReceipt);
      for i := 0 to n
        invariant Valid() && old(trace) <= trace && Now().proc == Collect(i, run) && Now().log == old(Now().log)
        invariant CollectedBelow(trace, |old(trace)| - 1, allowCompleted, attested, carriesReceipt, i)
        invariant turns >= old(turns) && (Calm(old(turns)) ==> chain == old(chain))
      {
        ghost var before := trace;
        ok := CollectBranch(i, allowCompleted, attested, carriesReceipt);
        if !ok {
          return;
        }
        CollectedNext(before, trace, |old(trace)| - 1, |before| - 1, allowCompleted, attested, carriesReceipt, i);
      }
      return true;
    }

    method CollectBranch(i: nat, allowCompleted: bool, attested: nat -> bool, carriesReceipt: nat -> bool) returns (ok: bool)
      requires Valid() && i < |run.entries| - 1 && Now().proc == Collect(i, run)
      modifies this`turns, this`chain, this`trace
      ensures Valid() && old(trace) <= trace && Now().log == old(Now().log)
      ensures Now().proc == if ok then Collect(i + 1, run) else Idle
      ensures ok ==> Collected(trace, |old(trace)| - 1, allowCompleted, attested, carriesReceipt, i)
      ensures turns >= old(turns) && (Calm(old(turns)) ==> chain == old(chain))
      ensures Calm(old(turns)) && ReadyFor(old(chain), allowCompleted, attested, carriesReceipt, i) ==> ok
    {
      hide History, Next;
      var job: Option<JobStatus>;
      ok, job := FetchJob(i);
      if !ok {
        return;
      }
      ghost var fetched := |trace| - 1;
      assert AccountOf(trace[fetched].chain, i) == job;
      var ready := job == Some(Settled) || (allowCompleted && job == Some(Completed) && attested(i));
      if !ready || !carriesReceipt(i) {
        Stop();
        return false;
      }
      CollectGoesOn(Now(), i, run, Collect(i + 1, run));
      Record(Now().(proc := Collect(i + 1, run)));
      assert AccountOf(trace[fetched].chain, i) == job;
    }

    /** The aggregate entry is planned against the collected branches, saved, and driven. */
    method BindCollected() returns (ok: bool)
      requires Valid() && run.entries != [] && Now().proc == Collect(|run.entries| - 1, run)
      modifies this
      ensures Valid() && old(trace) <= trace && Now().proc == Idle
      ensures Now().log != old(Now().log) ==> Seen(trace, |old(trace)| - 1, |old(run.entries)| - 1, None)
      ensures ok ==> disk == Some(run) && run.status == Open
      ensures ok ==> var entries := old(run.entries)[|old(run.entries)| - 1 := Planned];
                     && Driven(entries, run.entries, |entries|)
                     && Now().log == old(Now().log) + Missing(PredictBind, entries, |entries|)
      ensures Calm(old(turns)) && Unbound(old(run.entries), old(chain)) ==> ok
    {
      hide History, Driven;
      var bound := SetEntry(run, |run.entries| - 1, Planned).(status := Opening);
      CollectGoesOn(Now(), |run.entries| - 1, run, SaveBound(bound));
      Record(Now().(proc := SaveBound(bound)));
      run := bound;
      assert run.entries == old(run.entries)[|old(run.entries)| - 1 := Planned];
      ghost var from := |trace| - 1;
      ok := SaveBoundAndDrive();
      if Now().log != old(Now().log) {
        SeenLater(trace, trace, from, |old(trace)| - 1, |old(run.entries)| - 1, None);
      }
    }

    method SaveBoundAndDrive() returns (ok: bool)
      requires Valid() && run.entries != [] && Now().proc == SaveBound(run)
      modifies this
      ensures Valid() && old(trace) <= trace && Now().proc == Idle
      ensures Now().log != old(Now().log) ==> Seen(trace, |old(trace)| - 1, |old(run.entries)| - 1, None)
      ensures ok ==> disk == Some(run) && run.status == Open && Driven(old(run.entries), run.entries, |old(run.entries)|)
      ensures ok ==> Now().log == old(Now().log) + Missing(PredictBind, old(run.entries), |old(run.entries)|)
      ensures Calm(old(turns)) && |old(run.entries)| - 1 !in old(chain) && InStep(old(run.entries), old(chain), 0) ==> ok
    {
      hide History, Next, Driven, Calm, InStep, Missing, Seen;
      ok := SaveRun(AssertAbsent(PredictBind, run));
      CalmStays(old(turns), turns);
      if ok {
        ok := AssertJobsAbsent(PredictBind, Drive(PredictBind, 0, run));
        CalmStays(old(turns), turns);
        if ok {
          ghost var checked, last, from := trace, |run.entries| - 1, |old(trace)| - 1;
          SeenNow(checked, from, last);
          ok := DriveRunOpen(PredictBind);
          SeenLater(checked, trace, from, from, last, None);
        }
      }
    }

    // ----- cancel

    /** `predict cancel`.  When it succeeds the run is saved as cancelled with every entry retired: every account
        was read, each job found awaiting its artifact or open was cancelled with one transaction, and nothing
        else was sent. */
    method CancelRun() returns (ok: bool, ghost found: seq<Option<JobStatus>>)
      requires Valid() && Now().proc == Idle
      modifies this
      ensures Valid() && old(trace) <= trace && Now().proc == Idle && NeverAhead(disk, chain)
      ensures old(disk).None? ==> !ok && trace == old(trace)
      ensures ok ==> disk == Some(run) && run.status == RunCancelled && Sealed(run, chain)
      ensures ok ==> old(disk).Some? && CancelledBelow(trace, |old(trace)|, old(disk).value.entries, run.entries, found, |run.entries|)
      ensures ok ==> Now().log == old(Now().log) + Cancellations(found)
      ensures Calm(old(turns)) && old(disk).Some? ==> ok
    {
      hide History, Next, CancelledBelow, Sealed;
      ReachedNeverAhead(trace);
      found := [];
      if disk.None? {
        return false, found;
      }
      BeginCancel();
      ghost var from := |trace| - 1;
      ok, found := CancelEntries();
      if ok {
        ghost var retired := trace;
        ok := SaveCancelled();
        if ok {
          CancelledLater(retired, trace, |old(trace)|, from, old(disk).value.entries, run.entries, found, |run.entries|);
          ReachedCancelled(trace);
        }
      }
      ReachedNeverAhead(trace);
    }

    method BeginCancel()
      requires Valid() && Now().proc == Idle && disk.Some?
      modifies this`run, this`trace
      ensures Valid() && old(trace) < trace && Some(run) == disk && Now() == old(Now()).(proc := Cancelling(0, run))
    {
      hide History;
      run := disk.value;
      assert StartCancel(Now(), Now().(proc := Cancelling(0, run)));
      Record(Now().(proc := Cancelling(0, run)));
    }

    method SaveCancelled() returns (ok: bool)
      requires Valid() && Now().proc == Cancelling(|run.entries|, run)
      modifies this
      ensures Valid() && old(trace) <= trace && Now().proc == Idle && Now().log == old(Now().log)
      ensures ok ==> disk == Some(run) && run.status == RunCancelled && run.entries == old(run.entries)
      ensures turns >= old(turns) && (Calm(old(turns)) ==> ok)
    {
      hide History, Next;
      ghost var last := run.(status := RunCancelled);
      CancelGoesOn(Now(), |run.entries|, run, SaveRunCancelled(last));
      Record(Now().(proc := SaveRunCancelled(last)));
      run := run.(status := RunCancelled);
      ok := SaveRun(Idle);
    }

    /** The loop over the entries. */
    method CancelEntries() returns (ok: bool, ghost found: seq<Option<JobStatus>>)
      requires Valid() && Now().proc == Cancelling(0, run)
      modifies this
      ensures Valid() && old(trace) <= trace && |run.entries| == |old(run.entries)|
      ensures Now().proc == if ok then Cancelling(|run.entries|, run) else Idle
      ensures ok ==> CancelledBelow(trace, |old(trace)| - 1, old(run.entries), run.entries, found, |run.entries|)
      ensures ok ==> Now().log == old(Now().log) + Cancellations(found)
      ensures turns >= old(turns) && (Calm(old(turns)) ==> ok)
    {
      hide History, Next, CancelledBelow, Seen, Retired, EntryCancelled;
      var n := |run.entries|;
      ghost var start, from := run.entries, |trace| - 1;
      CancelledStart(trace, from, start);
      ok, found := true, [];
      for i := 0 to n
        invariant Valid() && old(trace) <= trace && |run.entries| == n && ok
        invariant Now().proc == Cancelling(i, run)
        invariant CancelledBelow(trace, from, start, run.entries, found, i) && |found| == i && turns >= old(turns)
        invariant Now().log == old(Now().log) + Cancellations(found)
      {
        ghost var before, entries, job := trace, run.entries, None;
        ok, job := CancelEntry(i);
        if !ok {
          return;
        }
        CancelledNext(before, trace, from, |before| - 1, start, entries, run.entries, found, job, i);
        CancellationsNext(found, job);
        found := found + [job];
      }
    }

    /** A step of the command that reads nothing and sends nothing. */
    ghost method CancelTo(i: nat, next: Proc)
      requires Valid() && Now().proc == Cancelling(i, run) && CancelStep(Now(), Now().(proc := next), i, run)
      modifies this`trace
      ensures Valid() && trace == old(trace) + [Now()] && Now() == old(Now()).(proc := next)
    {
      hide History, Next, CancelStep;
      CancelGoesOn(Now(), i, run, next);
      Record(Now().(proc := next));
    }

    method CancelOnChain(i: nat) returns (ok: bool)
      requires Valid() && Now().proc == SendCancel(i, run) && i < |run.entries|
      modifies this
      ensures Valid() && old(trace) <= trace
      ensures Now().proc == if ok then Cancelling(i + 1, run) else Idle
      ensures |run.entries| == |old(run.entries)|
      ensures ok ==> run.entries == old(run.entries)[i := Cancelled] && Retired(trace, |old(trace)| - 1, i)
      ensures ok ==> Now().log == old(Now().log) + [Tx(CancelOpen, i, PredictCancel, true, true)]
      ensures turns >= old(turns) && (Calm(old(turns)) && Fits(old(chain), CancelOpen, i) ==> ok)
    {
      hide History, Next, Retired, Calm, Fits, StatusAfter;
      ghost var tx;
      ok, tx := SignAndSend(CancelOpen, i, PredictCancel, SaveEntryCancelled(i, SetEntry(run, i, Cancelled)));
      if ok {
        ghost var sent := trace;
        CancelledStatus(CancelOpen);
        run := SetEntry(run, i, Cancelled);
        CalmStays(old(turns), turns);
        ok := SaveRun(Cancelling(i + 1, run));
        RetiredLater(sent, trace, |old(trace)| - 1, i);
      }
    }

    method CancelEntry(i: nat) returns (ok: bool, ghost job: Option<JobStatus>)
      requires Valid() && Now().proc == Cancelling(i, run) && i < |run.entries|
      modifies this
      ensures Valid() && old(trace) <= trace && |run.entries| == |old(run.entries)|
      ensures Now().proc == if ok then Cancelling(i + 1, run) else Idle
      ensures ok ==> Seen(trace, |old(trace)| - 1, i, job) && Retired(trace, |old(trace)| - 1, i)
      ensures ok ==> EntryCancelled(old(run.entries[i]), job, run.entries[i])
      ensures ok ==> forall j :: 0 <= j < |run.entries| && j != i ==> run.entries[j] == old(run.entries[j])
      ensures ok ==> Now().log == old(Now().log)
                     + if job in {Some(AwaitingArtifact), Some(JobOpen)} then [Tx(CancelOpen, i, PredictCancel, true, true)] else []
      ensures turns >= old(turns) && (Calm(old(turns)) ==> ok)
    {
      hide History, Next, Retired, Seen;
      var found: Option<JobStatus>;
      ok, found := FetchJob(i);
      job := found;
      if ok {
        ghost var fetched := trace;
        ok := CancelFound(i, found);
        SeenAtEnd(fetched, trace, |old(trace)| - 1, i);
        if ok {
          RetiredEarlier(trace, |fetched| - 1, |old(trace)| - 1, i);
        }
      }
    }

    /** What is done about an entry whose account was just read as `job`. */
    method CancelFound(i: nat, job: Option<JobStatus>) returns (ok: bool)
      requires Valid() && Now().proc == Cancelling(i, run) && i < |run.entries| && job == AccountOf(chain, i)
      modifies this
      ensures Valid() && old(trace) <= trace && |run.entries| == |old(run.entries)|
      ensures Now().proc == if ok then Cancelling(i + 1, run) else Idle
      ensures ok ==> EntryCancelled(old(run.entries[i]), job, run.entries[i]) && Retired(trace, |old(trace)| - 1, i)
      ensures ok ==> forall j :: 0 <= j < |run.entries| && j != i ==> run.entries[j] == old(run.entries[j])
      ensures ok ==> Now().log == old(Now().log)
                     + if job in {Some(AwaitingArtifact), Some(JobOpen)} then [Tx(CancelOpen, i, PredictCancel, true, true)] else []
      ensures turns >= old(turns) && (Calm(old(turns)) ==> ok)
    {
      hide History, Next, Retired, Calm;
      match job
      case None =>
        var retired := if Pending(run.entries[i]) || run.entries[i] == Deferred then SetEntry(run, i, Cancelled) else run;
        CancelTo(i, Cancelling(i + 1, retired));
        run := retired;
        RetiredLater(old(trace), trace, |old(trace)| - 1, i);
        return true;
      case Some(status) =>
        if status == AwaitingArtifact || status == JobOpen {
          CancelTo(i, SendCancel(i, run));
          hide CancelStep;
          ok := CancelOnChain(i);
          if ok {
            RetiredEarlier(trace, |old(trace)|, |old(trace)| - 1, i);
          }
        } else {
          CancelTo(i, Cancelling(i + 1, run));
          RetiredLater(old(trace), trace, |old(trace)| - 1, i);
          return true;
        }
    }
  }

  /** What the commands keep between them: the saved manifest is not ahead of the chain. */
  ghost predicate NeverAhead(disk: Option<Run>, chain: Chain) {
    disk.Some? ==> NotAhead(disk.value, chain)
  }

  lemma ReachedNeverAhead(trace: seq<World>)
    requires History(trace)
    ensures NeverAhead(trace[|trace| - 1].disk, trace[|trace| - 1].chain)
  {
    hide Next;
    ManifestNeverAhead(trace, |trace| - 1);
  }

  lemma ReachedCancelled(trace: seq<World>)
    requires History(trace)
    requires trace[|trace| - 1].disk.Some? && trace[|trace| - 1].disk.value.status == RunCancelled
    ensures Sealed(trace[|trace| - 1].disk.value, trace[|trace| - 1].chain)
  {
    hide Next;
    ReachableInv(trace, |trace| - 1);
  }

  lemma DrivenCompletes(found: seq<EntryStatus>, reconciled: seq<EntryStatus>, driven: seq<EntryStatus>)
    requires SameKept(found, reconciled)
    ensures Driven(reconciled, driven, |reconciled|) ==>
              && |driven| == |found|
              && forall i :: 0 <= i < |found| ==> driven[i] == if found[i] in {Deferred, Cancelled} then found[i] else Committed
  {
  }

  /** The transactions of a drive are as many as are left to send. */
  lemma {:induction false} MissingCounts(cmd: Command, entries: seq<EntryStatus>, n: nat)
    requires n <= |entries|
    ensures |Missing(cmd, entries, n)| == Remaining(entries[..n])
  {
    if n > 0 {
      MissingCounts(cmd, entries, n - 1);
      RemainingLast(entries[..n]);
      assert entries[..n][..n - 1] == entries[..n - 1];
    }
  }

  lemma {:induction false} RemainingLast(entries: seq<EntryStatus>)
    requires entries != []
    ensures Remaining(entries) == Remaining(entries[..|entries| - 1]) + Cost(entries[|entries| - 1])
  {
    if |entries| > 1 {
      RemainingLast(entries[1..]);
      assert entries[1..][..|entries| - 2] == entries[..|entries| - 1][1..];
    } else {
      assert entries[1..] == [];
    }
  }

  lemma {:induction false} NothingRemains(entries: seq<EntryStatus>)
    ensures (forall i :: 0 <= i < |entries| ==> !Pending(entries[i])) ==> Remaining(entries) == 0
  {
    if entries != [] {
      NothingRemains(entries[1..]);
      assert forall i :: 0 <= i < |entries| - 1 ==> entries[1..][i] == entries[i + 1];
    }
  }
}

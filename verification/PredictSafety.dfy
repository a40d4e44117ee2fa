/** The invariants of the prediction-run protocol, over every interleaving. */
module PredictSafety {
  import opened PredictRun

  // ----- what a change of the chain keeps

  /** Accounts stay, and a job past awaiting its artifact never awaits it again. */
  ghost predicate Grows(c: Chain, c': Chain) {
    forall i :: i in c ==> i in c' && (c[i] != AwaitingArtifact ==> c'[i] != AwaitingArtifact)
  }

  /** Workers create no account and touch no job that awaits its artifact. */
  ghost predicate WorkersOnly(c: Chain, c': Chain) {
    && c.Keys == c'.Keys
    && forall i :: i in c ==> (c[i] == AwaitingArtifact <==> c'[i] == AwaitingArtifact)
  }

  lemma EffectGrows(c: Chain, kind: TxKind, i: nat)
    requires Accepts(c, kind, i)
    ensures Grows(c, Effect(c, kind, i))
  {
  }

  lemma GrowsKeeps(run: Run, c: Chain, c': Chain)
    requires Grows(c, c')
    ensures NotAhead(run, c) ==> NotAhead(run, c')
    ensures forall n :: SealedBelow(run, c, n) ==> SealedBelow(run, c', n)
    ensures forall n :: BranchesDone(run, c, n) ==> BranchesDone(run, c', n)
  {
    if NotAhead(run, c) {
      forall i | 0 <= i < |run.entries|
        ensures run.entries[i] == Opened ==> i in c'
        ensures run.entries[i] == Committed ==> i in c' && c'[i] != AwaitingArtifact
      {
      }
    }
  }

  // ----- one step at a time

  lemma StartKeepsInv(w: World, w': World)
    requires Inv(w)
    requires StartResume(w, w') || StartBind(w, w') || StartCancel(w, w') || Crash(w, w')
    ensures Inv(w')
  {
  }

  lemma StartOpenKeepsInv(w: World, w': World, branches: nat)
    requires Inv(w) && StartOpen(w, w', branches)
    ensures Inv(w')
  {
  }

  lemma WorkKeepsInv(w: World, w': World, i: nat, to: JobStatus)
    requires Inv(w) && Work(w, w', i, to)
    ensures Inv(w')
  {
    assert Grows(w.chain, w'.chain) && WorkersOnly(w.chain, w'.chain);
    if w.disk.Some? {
      GrowsKeeps(w.disk.value, w.chain, w'.chain);
    }
    if w.proc != Idle {
      GrowsKeeps(w.proc.mem, w.chain, w'.chain);
    }
  }

  lemma FundingsStep(log: seq<Tx>, tx: Tx, i: nat)
    ensures Fundings(log + [tx], i) == Fundings(log, i) + if tx.kind == OpenJob && tx.entry == i && tx.landed then 1 else 0
  {
    assert (log + [tx])[..|log|] == log;
  }

  lemma SendKeepsLogs(w: World, w': World, kind: TxKind, i: nat, sender: Command, confirmed: Proc)
    requires Inv(w) && Send(w, w', kind, i, sender, confirmed)
    requires sender == PredictOpen || sender == PredictResume ==> Accepts(w.chain, kind, i)
    ensures FundingInv(w'.log, w'.chain) && LogInv(w'.log)
    ensures w'.disk == w.disk && w'.everCancelled == w.everCancelled
    ensures w'.chain == w.chain || (Accepts(w.chain, kind, i) && w'.chain == Effect(w.chain, kind, i))
    ensures w'.proc == Idle || (w'.proc == confirmed && Accepts(w.chain, kind, i) && w'.chain == Effect(w.chain, kind, i))
  {
    var tx := w'.log[|w'.log| - 1];
    assert w'.log == w.log + [tx];
    forall k: nat
      ensures Fundings(w'.log, k) <= 1 && (Fundings(w'.log, k) == 1 ==> k in w'.chain)
    {
      FundingsStep(w.log, tx, k);
      assert Fundings(w.log, k) <= 1;
    }
  }

  lemma AbsentKeepsInv(w: World, w': World, cmd: Command, mem: Run)
    requires Inv(w) && w.proc == AssertAbsent(cmd, mem) && AbsentStep(w, w', cmd, mem)
    ensures Inv(w')
  {
  }

  lemma ReconciledEntry(mem: Run, i: nat, chain: Chain)
    requires i < |mem.entries| && Pending(mem.entries[i])
    ensures var next := SetEntry(mem, i, Reconciled(chain, i));
            && (NotAhead(mem, chain) ==> NotAhead(next, chain))
            && (SyncedBelow(mem, chain, i) ==> SyncedBelow(next, chain, i + 1))
            && (Sealed(mem, chain) && NonePendingBelow(mem, i) ==> Sealed(next, chain) && NonePendingBelow(next, i + 1))
  {
  }

  lemma ReconcileKeepsInv(w: World, w': World, i: nat, mem: Run)
    requires Inv(w) && w.proc == Reconcile(i, mem) && ReconcileStep(w, w', i, mem)
    ensures Inv(w')
  {
    hide FundingInv, LogInv;
    if i < |mem.entries| && Pending(mem.entries[i]) {
      ReconciledEntry(mem, i, w.chain);
      hide NotAhead, SyncedBelow, SealedBelow, NonePendingBelow, Reconciled;
    }
  }

  lemma CollectKeepsInv(w: World, w': World, i: nat, mem: Run)
    requires Inv(w) && w.proc == Collect(i, mem) && CollectStep(w, w', i, mem)
    ensures Inv(w')
  {
  }

  /** Driving: the transaction sent for a pending entry. */
  lemma DriveSends(w: World, cmd: Command, i: nat, mem: Run)
    requires Inv(w) && w.proc == Drive(cmd, i, mem) && i < |mem.entries| && Pending(mem.entries[i])
    ensures !w.everCancelled
    ensures var kind := if mem.entries[i] == Planned then OpenJob else CommitInput;
            Accepts(w.chain, kind, i) <==> cmd != PredictBind || i == Aggregate(mem)
  {
  }

  lemma DriveKeepsInv(w: World, w': World, cmd: Command, i: nat, mem: Run)
    requires Inv(w) && w.proc == Drive(cmd, i, mem) && DriveStep(w, w', cmd, i, mem)
    ensures Inv(w')
  {
    if i < |mem.entries| && mem.entries[i] == Planned {
      DriveOpenKeepsInv(w, w', cmd, i, mem);
    } else if i < |mem.entries| && mem.entries[i] == Opened {
      DriveCommitKeepsInv(w, w', cmd, i, mem);
    }
  }

  lemma DriveOpenKeepsInv(w: World, w': World, cmd: Command, i: nat, mem: Run)
    requires Inv(w) && w.proc == Drive(cmd, i, mem) && i < |mem.entries| && mem.entries[i] == Planned
    requires Send(w, w', OpenJob, i, cmd, SaveOpened(cmd, i, SetEntry(mem, i, Opened)))
    ensures Inv(w')
  {
    DriveSends(w, cmd, i, mem);
    SendKeepsLogs(w, w', OpenJob, i, cmd, SaveOpened(cmd, i, SetEntry(mem, i, Opened)));
    hide FundingInv, LogInv, Send;
    LandingKeepsManifests(w, w', OpenJob, i, mem);
    assert CancelledInv(w') && ProcInv(w');
  }

  lemma DriveCommitKeepsInv(w: World, w': World, cmd: Command, i: nat, mem: Run)
    requires Inv(w) && w.proc == Drive(cmd, i, mem) && i < |mem.entries| && mem.entries[i] == Opened
    requires Send(w, w', CommitInput, i, cmd, SaveCommitted(cmd, i, SetEntry(mem, i, Committed)))
    ensures Inv(w')
  {
    DriveSends(w, cmd, i, mem);
    SendKeepsLogs(w, w', CommitInput, i, cmd, SaveCommitted(cmd, i, SetEntry(mem, i, Committed)));
    hide FundingInv, LogInv, Send;
    LandingKeepsManifests(w, w', CommitInput, i, mem);
    assert CancelledInv(w') && ProcInv(w');
  }

  /** Whether or not a transaction landed, no manifest gets ahead of the chain. */
  lemma LandingKeepsManifests(w: World, w': World, kind: TxKind, i: nat, mem: Run)
    requires w.disk.Some? ==> NotAhead(w.disk.value, w.chain)
    requires NotAhead(mem, w.chain)
    requires w'.chain == w.chain || (Accepts(w.chain, kind, i) && w'.chain == Effect(w.chain, kind, i))
    ensures w.disk.Some? ==> NotAhead(w.disk.value, w'.chain)
    ensures NotAhead(mem, w'.chain)
    ensures forall run: Run, n :: SealedBelow(run, w.chain, n) ==> SealedBelow(run, w'.chain, n)
  {
    if w'.chain != w.chain {
      EffectGrows(w.chain, kind, i);
    }
    assert Grows(w.chain, w'.chain);
    if w.disk.Some? {
      GrowsKeeps(w.disk.value, w.chain, w'.chain);
    }
    GrowsKeeps(mem, w.chain, w'.chain);
    forall run: Run, n | SealedBelow(run, w.chain, n) ensures SealedBelow(run, w'.chain, n) {
      GrowsKeeps(run, w.chain, w'.chain);
    }
  }

  lemma CancelKeepsInv(w: World, w': World, i: nat, mem: Run)
    requires Inv(w) && w.proc == Cancelling(i, mem) && CancelStep(w, w', i, mem)
    ensures Inv(w')
  {
  }

  lemma CancelledEntryIsRetired(mem: Run, i: nat, chain: Chain)
    requires i < |mem.entries|
    ensures NotAhead(mem, chain) ==> NotAhead(SetEntry(mem, i, Cancelled), chain)
    ensures SealedBelow(mem, chain, i) ==> SealedBelow(SetEntry(mem, i, Cancelled), chain, i + 1)
    ensures Sealed(mem, chain) ==> Sealed(SetEntry(mem, i, Cancelled), chain)
  {
  }

  /** What is known after a cancellation was sent, whether or not it landed. */
  lemma CancelSent(w: World, w': World, i: nat, mem: Run)
    requires Inv(w) && w.proc == SendCancel(i, mem)
    requires w'.disk == w.disk && w'.everCancelled == w.everCancelled
    requires w'.proc == Idle || w'.proc == SaveEntryCancelled(i, SetEntry(mem, i, Cancelled))
    requires (w.disk.Some? ==> NotAhead(w.disk.value, w'.chain)) && NotAhead(mem, w'.chain)
    requires forall run: Run, n :: SealedBelow(run, w.chain, n) ==> SealedBelow(run, w'.chain, n)
    ensures ManifestInv(w') && ProcInv(w') && CancelledInv(w')
  {
    hide FundingInv, LogInv, SealedBelow, NotAhead;
    CancelledEntryIsRetired(mem, i, w'.chain);
  }

  lemma SendCancelKeepsInv(w: World, w': World, i: nat, mem: Run)
    requires Inv(w) && w.proc == SendCancel(i, mem) && CliStep(w, w')
    ensures Inv(w')
  {
    var confirmed := SaveEntryCancelled(i, SetEntry(mem, i, Cancelled));
    SendKeepsLogs(w, w', CancelOpen, i, PredictCancel, confirmed);
    hide FundingInv, LogInv, Send, Effect, Accepts, CliStep, SealedBelow, NotAhead;
    LandingKeepsManifests(w, w', CancelOpen, i, mem);
    hide CancelledInv;
    CancelSent(w, w', i, mem);
  }

  lemma SavesKeepInv(w: World, w': World)
    requires Inv(w) && CliStep(w, w')
    requires w.proc.SavePlan? || w.proc.SaveReconciled? || w.proc.SaveBound? || w.proc.SaveOpened? || w.proc.SaveCommitted?
          || w.proc.SaveRunOpen? || w.proc.SaveEntryCancelled? || w.proc.SaveRunCancelled?
    ensures Inv(w')
  {
    hide FundingInv, LogInv;
  }

  lemma CliStepKeepsInv(w: World, w': World)
    requires Inv(w) && CliStep(w, w')
    ensures Inv(w')
  {
    hide Inv;
    match w.proc
    case AssertAbsent(cmd, mem) => AbsentKeepsInv(w, w', cmd, mem);
    case Reconcile(i, mem) => ReconcileKeepsInv(w, w', i, mem);
    case Collect(i, mem) => CollectKeepsInv(w, w', i, mem);
    case Drive(cmd, i, mem) => DriveKeepsInv(w, w', cmd, i, mem);
    case Cancelling(i, mem) => CancelKeepsInv(w, w', i, mem);
    case SendCancel(i, mem) => SendCancelKeepsInv(w, w', i, mem);
    case _ => SavesKeepInv(w, w');
  }

  lemma NextKeepsInv(w: World, w': World)
    requires Inv(w) && Next(w, w')
    ensures Inv(w')
  {
    hide Inv, StartResume, StartBind, StartCancel, CliStep, StartOpen, Work;
    if n: nat :| StartOpen(w, w', n) {
      StartOpenKeepsInv(w, w', n);
    } else if i: nat, to: JobStatus :| Work(w, w', i, to) {
      WorkKeepsInv(w, w', i, to);
    } else if CliStep(w, w') {
      CliStepKeepsInv(w, w');
    } else {
      StartKeepsInv(w, w');
    }
  }
}

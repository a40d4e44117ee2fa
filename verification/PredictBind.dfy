/** One `predict bind-aggregate` command, from the manifest it finds saved to its end: exactly when it sends
    a transaction the program refuses, and when it completes. */
module PredictBind {
  import opened Results
  import opened PredictRun
  import opened PredictSafety
  import opened PredictTheorems

  /** A branch entry the saved manifest still has as planned or opened. */
  ghost predicate PendingBranch(m: Run) {
    exists i :: 0 <= i < Aggregate(m) && Pending(m.entries[i])
  }

  ghost predicate SameBranches(m: Run, mem: Run) {
    |mem.entries| == |m.entries| && forall i :: 0 <= i < Aggregate(m) ==> mem.entries[i] == m.entries[i]
  }

  /** The manifest binding saves: the aggregate planned, the branches as they were. */
  function BoundRun(m: Run): Run
    requires m.entries != []
  {
    SetEntry(m, Aggregate(m), Planned).(status := Opening)
  }

  predicate InDrive(p: Proc) {
    p.Drive? || p.SaveOpened? || p.SaveCommitted? || p.SaveRunOpen?
  }

  /** Where a bind-aggregate that started from `m` can stand. */
  ghost predicate Binding(m: Run, p: Proc)
    requires m.entries != []
  {
    match p
    case Idle => true
    case Collect(_, mem) => mem == m
    case SaveBound(mem) => mem == BoundRun(m)
    case AssertAbsent(cmd, mem) => cmd == PredictBind && mem == BoundRun(m)
    case Drive(cmd, _, mem) => cmd == PredictBind && SameBranches(m, mem)
    case SaveOpened(cmd, i, mem) => cmd == PredictBind && SameBranches(m, mem) && i == Aggregate(m)
    case SaveCommitted(cmd, i, mem) => cmd == PredictBind && SameBranches(m, mem) && i == Aggregate(m)
    case SaveRunOpen(mem) => SameBranches(m, mem)
    case _ => false
  }

  // ----- one step

  lemma DriveBinds(m: Run, w: World, w': World, i: nat, mem: Run)
    requires m.entries != [] && Inv(w) && w.proc == Drive(PredictBind, i, mem) && SameBranches(m, mem)
    requires DriveStep(w, w', PredictBind, i, mem)
    ensures Binding(m, w'.proc) && w.log <= w'.log && |w'.log| <= |w.log| + 1
    ensures |w'.log| > |w.log| ==>
              && i < |mem.entries| && Pending(mem.entries[i])
              && (!w'.log[|w.log|].valid <==> i < Aggregate(m))
    ensures w'.proc == Idle ==> |w'.log| > |w.log|
  {
    if i < |mem.entries| && Pending(mem.entries[i]) {
      DriveSends(w, PredictBind, i, mem);
    }
    hide Inv;
  }

  /** A step of the command keeps to its path, and sends a refused transaction only for a branch entry that
      was pending in `m`. */
  lemma BindingStep(m: Run, w: World, w': World)
    requires m.entries != [] && Inv(w) && Binding(m, w.proc) && w.proc != Idle && Next(w, w')
    ensures Binding(m, w'.proc) && w.log <= w'.log && |w'.log| <= |w.log| + 1
    ensures |w'.log| > |w.log| && !w'.log[|w.log|].valid ==> PendingBranch(m)
    ensures InDrive(w.proc) && w'.proc != Idle ==> InDrive(w'.proc)
  {
    if CliStep(w, w') {
      if w.proc.Drive? {
        DriveBinds(m, w, w', w.proc.i, w.proc.mem);
      }
    }
    hide Inv, Next, DriveStep, Send;
    assert CliStep(w, w') || w'.log == w.log by {
      NextKinds(w, w');
    }
  }

  lemma NextKinds(w: World, w': World)
    requires w.proc != Idle && Next(w, w')
    ensures CliStep(w, w') || (w'.log == w.log && (w'.proc == Idle || w'.proc == w.proc))
  {
    hide CliStep, WorkerMove;
  }

  // ----- one command

  /** Of the run `ws`, the states from `s` to `k` are one bind-aggregate command, which found `m` saved. */
  ghost predicate BindCommand(ws: seq<World>, s: nat, k: nat, m: Run) {
    && Execution(ws) && Init(ws[0]) && s < k < |ws|
    && StartBind(ws[s], ws[s + 1]) && ws[s].disk == Some(m)
    && forall j :: s < j < k ==> ws[j].proc != Idle
  }

  /** The command ended by a step of its own, not by being killed. */
  ghost predicate EndsItself(ws: seq<World>, k: nat) {
    0 < k < |ws| && ws[k].proc == Idle && CliStep(ws[k - 1], ws[k])
  }

  ghost predicate SentRefused(before: seq<Tx>, after: seq<Tx>) {
    exists t :: |before| <= t < |after| && !after[t].valid
  }

  ghost predicate Driven(ws: seq<World>, s: nat, k: nat) {
    exists j :: s < j < k < |ws| && InDrive(ws[j].proc)
  }

  lemma StartOfBind(w: World, w': World, m: Run)
    requires StartBind(w, w') && w.disk == Some(m)
    ensures m.entries != [] && w'.proc == Collect(0, m) && w'.log == w.log
  {
  }

  /** Everywhere in the command: its place is on its path, and a refused transaction means that a branch
      entry was pending in the manifest it found. */
  lemma {:induction false} CommandKeepsPath(ws: seq<World>, s: nat, k: nat, m: Run)
    requires BindCommand(ws, s, k, m)
    ensures m.entries != [] && Binding(m, ws[k].proc) && ws[s].log <= ws[k].log
    ensures SentRefused(ws[s].log, ws[k].log) ==> PendingBranch(m)
    ensures Driven(ws, s, k) && ws[k].proc != Idle ==> InDrive(ws[k].proc)
    decreases k
  {
    hide Next, StartBind, Init;
    StartOfBind(ws[s], ws[s + 1], m);
    if k > s + 1 {
      CommandKeepsPath(ws, s, k - 1, m);
      assert Next(ws[k - 1], ws[k]);
      ReachableInv(ws, k - 1);
      hide Inv, Binding, Execution, PendingBranch;
      BindingStep(m, ws[k - 1], ws[k]);
      if Driven(ws, s, k) {
        var j :| s < j < k && InDrive(ws[j].proc);
        assert j < k - 1 ==> Driven(ws, s, k - 1);
      }
    }
  }

  /** With a branch pending the drive stops at it: the command never gets to save the run as open, nor to
      open or commit the aggregate. */
  lemma PendingBranchBlocks(m: Run, w: World)
    requires m.entries != [] && Inv(w) && Binding(m, w.proc) && InDrive(w.proc) && PendingBranch(m)
    ensures w.proc.Drive? && exists p :: w.proc.i <= p < Aggregate(m) && Pending(w.proc.mem.entries[p])
  {
    var p :| 0 <= p < Aggregate(m) && Pending(m.entries[p]);
    assert Pending(w.proc.mem.entries[p]);
  }

  lemma DriveEndsRefused(m: Run, w: World, w': World)
    requires m.entries != [] && Inv(w) && Binding(m, w.proc) && InDrive(w.proc) && PendingBranch(m)
    requires CliStep(w, w') && w'.proc == Idle
    ensures w.proc.Drive? && |w'.log| == |w.log| + 1 && w.log <= w'.log && !w'.log[|w.log|].valid
  {
    PendingBranchBlocks(m, w);
    DriveBinds(m, w, w', w.proc.i, w.proc.mem);
    hide Inv, Binding, PendingBranch;
  }

  /** The command as a whole, in terms of the manifest the customer can look at before running it: one that
      reaches its drive and is not killed sends a transaction the program refuses if and only if a branch
      entry is pending in the saved manifest, and then it ends without finishing. */
  lemma BindRefusedExactly(ws: seq<World>, s: nat, k: nat, m: Run)
    requires BindCommand(ws, s, k, m) && Driven(ws, s, k) && EndsItself(ws, k)
    ensures SentRefused(ws[s].log, ws[k].log) <==> PendingBranch(m)
    ensures PendingBranch(m) ==> !ws[k - 1].proc.SaveRunOpen?
  {
    hide Next, StartBind, Init, CliStep;
    CommandKeepsPath(ws, s, k, m);
    var j :| s < j < k && InDrive(ws[j].proc);
    if j < k - 1 {
      CommandKeepsPath(ws, s, k - 1, m);
      assert Driven(ws, s, k - 1);
    }
    CommandAt(ws, s, k, m);
    if PendingBranch(m) {
      hide Binding, Inv, PendingBranch, BindCommand;
      DriveEndsRefused(m, ws[k - 1], ws[k]);
      assert !ws[k].log[|ws[k - 1].log|].valid;
    }
  }

  /** What is known one step before the end. */
  lemma CommandAt(ws: seq<World>, s: nat, k: nat, m: Run)
    requires BindCommand(ws, s, k, m) && k > s + 1
    ensures BindCommand(ws, s, k - 1, m) && Inv(ws[k - 1]) && m.entries != []
    ensures Binding(m, ws[k - 1].proc) && ws[s].log <= ws[k - 1].log
  {
    hide Next, StartBind, Init;
    ReachableInv(ws, k - 1);
    CommandKeepsPath(ws, s, k - 1, m);
  }

  /** Killed or not, the command never finishes when a branch entry is pending in the saved manifest. */
  lemma BindCannotFinish(ws: seq<World>, s: nat, k: nat, m: Run)
    requires BindCommand(ws, s, k, m) && PendingBranch(m)
    ensures !ws[k].proc.SaveOpened? && !ws[k].proc.SaveCommitted? && !ws[k].proc.SaveRunOpen?
  {
    hide Next, StartBind, Init;
    CommandKeepsPath(ws, s, k, m);
    ReachableInv(ws, k);
    if InDrive(ws[k].proc) {
      hide BindCommand;
      PendingBranchBlocks(m, ws[k]);
    }
  }

  // ----- a bind-aggregate without failures

  /** What lets the command complete: no branch pending in the manifest, every branch settled, and, until the
      drive, no account for the aggregate. */
  ghost predicate Completable(m: Run, w: World) {
    && m.entries != [] && !PendingBranch(m)
    && (forall i :: 0 <= i < Aggregate(m) ==> i in w.chain && w.chain[i] == Settled)
    && (InDrive(w.proc) || Aggregate(m) !in w.chain)
  }

  function BindMeasure(p: Proc): nat {
    match p
    case Collect(i, mem) => 5 * |mem.entries| + 5 + Left(i, mem)
    case SaveBound(mem) => 5 * |mem.entries| + 4
    case AssertAbsent(_, mem) => 5 * |mem.entries| + 3
    case Drive(_, i, mem) => 2 * Remaining(mem.entries) + Left(i, mem) + 2
    case SaveOpened(_, i, mem) => 2 * Remaining(mem.entries) + Left(i, mem) + 3
    case SaveCommitted(_, i, mem) => 2 * Remaining(mem.entries) + Left(i, mem) + 3
    case SaveRunOpen(_) => 1
    case _ => 0
  }

  /** What a finished bind-aggregate leaves: the run open, the branches as they were, the aggregate committed. */
  ghost predicate Bound(m: Run, end: Option<Run>) {
    && end.Some? && end.value.status == Open && m.entries != [] && SameBranches(m, end.value)
    && end.value.entries[Aggregate(m)] == Committed
  }

  /** The aggregate entry on its way: planned, opened, or committed where the drive has passed it. */
  ghost predicate AggregateMoves(m: Run, p: Proc)
    requires m.entries != []
  {
    InDrive(p) && |p.mem.entries| == |m.entries| ==>
      p.mem.entries[Aggregate(m)] in {Planned, Opened, Committed} && (p.SaveRunOpen? ==> p.mem.entries[Aggregate(m)] == Committed)
  }

  /** The state of a command that can still complete. */
  ghost predicate OnTheWay(m: Run, w: World) {
    Inv(w) && Completable(m, w) && w.proc != Idle && Binding(m, w.proc) && AggregateMoves(m, w.proc)
  }

  lemma CollectProgress(m: Run, w: World, w': World)
    requires OnTheWay(m, w) && SuccessStep(w, w') && !InDrive(w.proc)
    ensures w'.proc != Idle && Binding(m, w'.proc) && AggregateMoves(m, w'.proc) && Completable(m, w')
    ensures BindMeasure(w'.proc) < BindMeasure(w.proc)
  {
    hide Inv, PendingBranch, Remaining;
    RemainingBound(BoundRun(m).entries);
  }

  /** In the drive only the aggregate entry is pending, and its transactions are accepted. */
  lemma AggregateProgress(m: Run, w: World, w': World, mem: Run)
    requires OnTheWay(m, w) && SuccessStep(w, w') && w.proc == Drive(PredictBind, Aggregate(m), mem)
    requires Pending(mem.entries[Aggregate(m)])
    ensures w'.proc != Idle && AggregateMoves(m, w'.proc) && Completable(m, w')
    ensures BindMeasure(w'.proc) < BindMeasure(w.proc)
  {
    var i := Aggregate(m);
    RemainingUpdate(mem.entries, i, Opened);
    RemainingUpdate(mem.entries, i, Committed);
    hide Remaining, Inv, PendingBranch, SameBranches;
  }

  lemma DriveProgress(m: Run, w: World, w': World, i: nat, mem: Run)
    requires OnTheWay(m, w) && SuccessStep(w, w') && w.proc == Drive(PredictBind, i, mem)
    ensures w'.proc != Idle && AggregateMoves(m, w'.proc) && Completable(m, w')
    ensures BindMeasure(w'.proc) < BindMeasure(w.proc)
  {
    OnlyAggregatePending(m, w, i, mem);
    if i < |mem.entries| && Pending(mem.entries[i]) {
      AggregateProgress(m, w, w', mem);
    } else {
      hide Remaining, Inv, PendingBranch, SameBranches, Send;
    }
  }

  lemma OnlyAggregatePending(m: Run, w: World, i: nat, mem: Run)
    requires OnTheWay(m, w) && w.proc == Drive(PredictBind, i, mem)
    ensures i < |mem.entries| && Pending(mem.entries[i]) ==> i == Aggregate(m)
    ensures i >= |mem.entries| ==> mem.entries[Aggregate(m)] == Committed
  {
    assert i < Aggregate(m) ==> mem.entries[i] == m.entries[i];
  }

  lemma SaveProgress(m: Run, w: World, w': World)
    requires OnTheWay(m, w) && SuccessStep(w, w') && (w.proc.SaveOpened? || w.proc.SaveCommitted?)
    ensures w'.proc != Idle && AggregateMoves(m, w'.proc) && Completable(m, w')
    ensures BindMeasure(w'.proc) < BindMeasure(w.proc)
  {
    hide Inv, PendingBranch, Remaining;
  }

  lemma FinalSave(m: Run, w: World, w': World)
    requires OnTheWay(m, w) && SuccessStep(w, w') && w.proc.SaveRunOpen?
    ensures w'.proc == Idle && Bound(m, w'.disk) && BindMeasure(w.proc) == 1
  {
    assert w.proc.mem.status == Open;
    hide Inv, PendingBranch;
  }

  /** A step of the command that does not fail leads on, or is the last and leaves the run bound. */
  lemma OnTheWayStep(m: Run, w: World, w': World)
    requires OnTheWay(m, w) && SuccessStep(w, w')
    ensures || (w'.proc == Idle && BindMeasure(w.proc) == 1 && Bound(m, w'.disk))
            || (w'.proc != Idle && OnTheWay(m, w') && BindMeasure(w'.proc) < BindMeasure(w.proc))
  {
    CliStepKeepsInv(w, w');
    assert Next(w, w');
    BindingStep(m, w, w');
    hide Inv, Next, Completable, BindMeasure, AggregateMoves, Binding;
    if w.proc.SaveRunOpen? {
      FinalSave(m, w, w');
    } else if w.proc.Drive? {
      BindDrives(m, w);
      DriveProgress(m, w, w', w.proc.i, w.proc.mem);
    } else if InDrive(w.proc) {
      SaveProgress(m, w, w');
    } else {
      CollectProgress(m, w, w');
    }
  }

  lemma BindDrives(m: Run, w: World)
    requires OnTheWay(m, w) && w.proc.Drive?
    ensures w.proc.cmd == PredictBind
  {
  }

  lemma OnTheWayWork(m: Run, w: World, w': World)
    requires OnTheWay(m, w) && WorkStep(w, w')
    ensures OnTheWay(m, w') && w'.proc == w.proc
  {
    var i: nat, to: JobStatus :| Work(w, w', i, to);
    WorkKeepsInv(w, w', i, to);
    hide Inv, Binding, AggregateMoves, PendingBranch;
  }

  /** There always is such a step. */
  lemma OnTheWayPossible(m: Run, w: World)
    requires OnTheWay(m, w)
    ensures exists w' :: SuccessStep(w, w')
  {
    match w.proc
    case Collect(i, mem) =>
      var next := if i >= Aggregate(mem) then SaveBound(SetEntry(mem, Aggregate(mem), Planned).(status := Opening)) else Collect(i + 1, mem);
      assert SuccessStep(w, w.(proc := next));
    case SaveBound(mem) => assert SuccessStep(w, Saved(w, mem, AssertAbsent(PredictBind, mem)));
    case AssertAbsent(_, mem) => assert SuccessStep(w, w.(proc := Drive(PredictBind, 0, mem)));
    case SaveOpened(cmd, i, mem) => assert SuccessStep(w, Saved(w, mem, Drive(cmd, i, mem)));
    case SaveCommitted(cmd, i, mem) => assert SuccessStep(w, Saved(w, mem, Drive(cmd, i + 1, mem)));
    case SaveRunOpen(mem) => assert SuccessStep(w, Saved(w, mem, Idle));
    case Drive(cmd, i, mem) =>
      OnlyAggregatePending(m, w, i, mem);
      DrivePossible(m, w, i, mem);
  }

  lemma DrivePossible(m: Run, w: World, i: nat, mem: Run)
    requires OnTheWay(m, w) && w.proc == Drive(PredictBind, i, mem)
    requires i < |mem.entries| && Pending(mem.entries[i]) ==> i == Aggregate(m)
    ensures exists w' :: SuccessStep(w, w')
  {
    if i < |mem.entries| && Pending(mem.entries[i]) {
      DriveSends(w, PredictBind, i, mem);
      var kind := if mem.entries[i] == Planned then OpenJob else CommitInput;
      var next := if mem.entries[i] == Planned then SaveOpened(PredictBind, i, SetEntry(mem, i, Opened))
                  else SaveCommitted(PredictBind, i, SetEntry(mem, i, Committed));
      hide Inv, PendingBranch;
      assert SuccessStep(w, w.(chain := Effect(w.chain, kind, i), log := w.log + [Tx(kind, i, PredictBind, true, true)], proc := next));
    } else {
      assert SuccessStep(w, w.(proc := if i < |mem.entries| then Drive(PredictBind, i + 1, mem) else SaveRunOpen(mem.(status := Open))));
    }
  }

  lemma StartsOnTheWay(w: World, w': World, m: Run)
    requires Inv(w) && w.disk == Some(m) && StartBind(w, w') && Completable(m, w)
    ensures OnTheWay(m, w') && BindMeasure(w'.proc) <= 6 * |m.entries| + 5
  {
    StartKeepsInv(w, w');
    hide Inv, PendingBranch;
  }

  /** A failure-free bind-aggregate over a saved manifest with no pending branch, settled branches and no
      aggregate account takes at most `BindMeasure` steps, and when it ends the run is open with the branches
      as they were and the aggregate committed.  With `OnTheWayPossible` it always ends. */
  lemma {:induction false} FailureFreeBindCompletes(m: Run, ws: seq<World>)
    requires FailureFree(ws) && OnTheWay(m, ws[0])
    ensures var last := ws[|ws| - 1];
            && (last.proc == Idle ==> Bound(m, last.disk) && CommandSteps(ws) <= BindMeasure(ws[0].proc))
            && (last.proc != Idle ==> OnTheWay(m, last) && CommandSteps(ws) + BindMeasure(last.proc) <= BindMeasure(ws[0].proc))
    decreases |ws|
  {
    hide OnTheWay, SuccessStep, WorkStep, BindMeasure, Bound;
    if |ws| > 1 {
      var w, w' := ws[|ws| - 2], ws[|ws| - 1];
      var before := ws[..|ws| - 1];
      FailureFreeBindCompletes(m, before);
      if w.proc == Idle {
        IdleOnlyWorks(w, w');
      } else if WorkStep(w, w') {
        OnTheWayWork(m, w, w');
      } else {
        OnTheWayStep(m, w, w');
      }
    }
    AlreadyGoing(m, ws[0]);
  }

  /** The command as a whole: found in a reachable state with no branch pending in the saved manifest, every
      branch settled and no account for the aggregate, and with nothing failing, bind-aggregate takes at most
      six steps per entry and five more, and when it ends the run is bound. */
  lemma SettledRunBinds(history: seq<World>, m: Run, ws: seq<World>)
    requires Execution(history) && Init(history[0]) && history[|history| - 1].disk == Some(m)
    requires FailureFree(ws) && StartBind(history[|history| - 1], ws[0]) && Completable(m, history[|history| - 1])
    ensures var last := ws[|ws| - 1];
            && CommandSteps(ws) <= 6 * |m.entries| + 5
            && (last.proc == Idle ==> Bound(m, last.disk))
            && (last.proc != Idle ==> exists w' :: SuccessStep(last, w'))
  {
    hide Next, Init, StartBind, Completable, OnTheWay, Bound, SuccessStep, BindMeasure, Inv;
    ReachableInv(history, |history| - 1);
    StartsOnTheWay(history[|history| - 1], ws[0], m);
    FailureFreeBindCompletes(m, ws);
    if ws[|ws| - 1].proc != Idle {
      OnTheWayPossible(m, ws[|ws| - 1]);
    }
  }

  lemma AlreadyGoing(m: Run, w: World)
    requires OnTheWay(m, w)
    ensures w.proc != Idle
  {
  }

  lemma IdleOnlyWorks(w: World, w': World)
    requires w.proc == Idle && (SuccessStep(w, w') || WorkStep(w, w'))
    ensures WorkStep(w, w') && w'.proc == Idle && w'.disk == w.disk
  {
  }
}

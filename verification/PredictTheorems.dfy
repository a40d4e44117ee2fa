/** What holds over whole runs of the prediction-run protocol. */
module PredictTheorems {
  import opened Results
  import opened PredictRun
  import opened PredictSafety

  // ----- every reachable state

  lemma {:induction false} ReachableInv(ws: seq<World>, k: nat)
    requires Execution(ws) && Init(ws[0]) && k < |ws|
    ensures Inv(ws[k])
  {
    hide Next;
    if k > 0 {
      ReachableInv(ws, k - 1);
      assert Next(ws[k - 1], ws[k]);
      NextKeepsInv(ws[k - 1], ws[k]);
    }
  }

  /** At every point of every run, whatever crashed before: an entry saved as opened or committed has a
      job account, one saved as committed has a job past awaiting its artifact, and no entry's escrow
      was funded twice. */
  lemma ManifestNeverAhead(ws: seq<World>, k: nat)
    requires Execution(ws) && Init(ws[0]) && k < |ws|
    ensures ws[k].disk.Some? ==> NotAhead(ws[k].disk.value, ws[k].chain)
    ensures forall i: nat :: Fundings(ws[k].log, i) <= 1 && (Fundings(ws[k].log, i) == 1 ==> i in ws[k].chain)
  {
    ReachableInv(ws, k);
  }

  /** In every run, each transaction sent by open or resume was one the program accepts: an account is
      opened only where none exists, an artifact committed only to a job that awaits it. */
  lemma OpenAndResumeNeverRepeat(ws: seq<World>, k: nat, t: nat)
    requires Execution(ws) && Init(ws[0]) && k < |ws|
    requires t < |ws[k].log| && ws[k].log[t].sender in {PredictOpen, PredictResume}
    ensures ws[k].log[t].valid
  {
    ReachableInv(ws, k);
  }

  /** Bind-aggregate drives without reconciling, so the same is false of it, and exactly so: a
      transaction it sends is accepted if and only if it is for the aggregate entry.  A branch entry
      still pending in the manifest makes it send one that is refused. */
  lemma BindSendsForAggregateOnly(ws: seq<World>, k: nat)
    requires Execution(ws) && Init(ws[0]) && k < |ws|
    requires ws[k].proc.Drive? && ws[k].proc.cmd == PredictBind
    requires ws[k].proc.i < |ws[k].proc.mem.entries| && Pending(ws[k].proc.mem.entries[ws[k].proc.i])
    ensures var i, mem := ws[k].proc.i, ws[k].proc.mem;
            Accepts(ws[k].chain, if mem.entries[i] == Planned then OpenJob else CommitInput, i) <==> i == Aggregate(mem)
  {
    ReachableInv(ws, k);
    DriveSends(ws[k], PredictBind, ws[k].proc.i, ws[k].proc.mem);
  }

  const PLANNED_RUN := Run(Opening, [Planned, Deferred])
  const OPENED_RUN := Run(Opening, [Opened, Deferred])
  const BOUND_RUN := Run(Opening, [Opened, Planned])

  /** A run of one branch: the commit lands but the command dies before saving that; the branch
      settles; bind-aggregate then commits the same artifact again. */
  function Scene(k: nat): World {
    var none: Chain := map[];
    var open := Tx(OpenJob, 0, PredictOpen, true, true);
    var commit := Tx(CommitInput, 0, PredictOpen, true, true);
    if k == 0 then World(None, none, [], false, Idle)
    else if k == 1 then World(None, none, [], false, AssertAbsent(PredictOpen, PLANNED_RUN))
    else if k == 2 then World(None, none, [], false, SavePlan(PLANNED_RUN))
    else if k == 3 then World(Some(PLANNED_RUN), none, [], false, Drive(PredictOpen, 0, PLANNED_RUN))
    else if k == 4 then World(Some(PLANNED_RUN), map[0 := AwaitingArtifact], [open], false, SaveOpened(PredictOpen, 0, OPENED_RUN))
    else if k == 5 then World(Some(OPENED_RUN), map[0 := AwaitingArtifact], [open], false, Drive(PredictOpen, 0, OPENED_RUN))
    else if k == 6 then World(Some(OPENED_RUN), map[0 := JobOpen], [open, commit], false, Idle)
    else if k == 7 then World(Some(OPENED_RUN), map[0 := Settled], [open, commit], false, Idle)
    else if k == 8 then World(Some(OPENED_RUN), map[0 := Settled], [open, commit], false, Collect(0, OPENED_RUN))
    else if k == 9 then World(Some(OPENED_RUN), map[0 := Settled], [open, commit], false, Collect(1, OPENED_RUN))
    else if k == 10 then World(Some(OPENED_RUN), map[0 := Settled], [open, commit], false, SaveBound(BOUND_RUN))
    else if k == 11 then World(Some(BOUND_RUN), map[0 := Settled], [open, commit], false, AssertAbsent(PredictBind, BOUND_RUN))
    else if k == 12 then World(Some(BOUND_RUN), map[0 := Settled], [open, commit], false, Drive(PredictBind, 0, BOUND_RUN))
    else World(Some(BOUND_RUN), map[0 := Settled], [open, commit, Tx(CommitInput, 0, PredictBind, false, false)], false, Idle)
  }

  lemma SceneStarts(k: nat)
    requires k < 3
    ensures Next(Scene(k), Scene(k + 1))
  {
    assert seq(1, i => Planned) == [Planned];
    assert FreshRun(1) == PLANNED_RUN;
    if k == 0 {
      assert StartOpen(Scene(0), Scene(1), 1);
    } else {
      assert CliStep(Scene(k), Scene(k + 1));
    }
  }

  lemma SceneOpens(k: nat)
    requires 3 <= k < 6
    ensures Next(Scene(k), Scene(k + 1))
  {
    assert SetEntry(PLANNED_RUN, 0, Opened) == OPENED_RUN;
    assert Effect(map[], OpenJob, 0) == map[0 := AwaitingArtifact];
    assert Effect(map[0 := AwaitingArtifact], CommitInput, 0) == map[0 := JobOpen];
    assert CliStep(Scene(k), Scene(k + 1));
  }

  lemma SceneBinds(k: nat)
    requires 6 <= k < 13
    ensures Next(Scene(k), Scene(k + 1))
  {
    if k == 6 {
      assert map[0 := JobOpen][0 := Settled] == map[0 := Settled];
      assert Work(Scene(6), Scene(7), 0, Settled);
    } else if k == 7 {
      assert StartBind(Scene(7), Scene(8));
    } else {
      assert SetEntry(OPENED_RUN, Aggregate(OPENED_RUN), Planned).(status := Opening) == BOUND_RUN;
      assert CliStep(Scene(k), Scene(k + 1));
    }
  }

  lemma BindCanRepeatACommit() returns (ws: seq<World>)
    ensures Execution(ws) && Init(ws[0])
    ensures var log := ws[|ws| - 1].log;
            && |log| == 3 && log[1] == Tx(CommitInput, 0, PredictOpen, true, true)
            && log[2] == Tx(CommitInput, 0, PredictBind, false, false)
  {
    ws := seq(14, k requires 0 <= k < 14 => Scene(k));
    hide Next;
    forall k | 0 <= k < |ws| - 1 ensures Next(ws[k], ws[k + 1]) {
      if k < 3 {
        SceneStarts(k);
      } else if k < 6 {
        SceneOpens(k);
      } else {
        SceneBinds(k);
      }
    }
  }

  // ----- after cancellation

  lemma CancelledStep(w: World, w': World)
    requires Inv(w) && w.everCancelled && Next(w, w')
    ensures w'.everCancelled
    ensures w'.log == w.log || (exists tx: Tx :: tx.kind == CancelOpen && w'.log == w.log + [tx])
  {
    if w.proc.Drive? && CliStep(w, w') {
      var i, mem := w.proc.i, w.proc.mem;
      assert i < |mem.entries| ==> !Pending(mem.entries[i]);
    }
  }

  ghost predicate OnlyCancels(log: seq<Tx>, log': seq<Tx>) {
    log <= log' && forall t :: |log| <= t < |log'| ==> log'[t].kind == CancelOpen
  }

  /** Once the run has been saved as cancelled, no later command opens or commits any job, even though
      bind-aggregate may set the saved run status back to opening before its absence check refuses. */
  lemma {:induction false} NothingOpensAfterCancel(ws: seq<World>, j: nat, k: nat)
    requires Execution(ws) && Init(ws[0]) && j <= k < |ws|
    requires ws[j].disk.Some? && ws[j].disk.value.status == RunCancelled
    ensures ws[k].everCancelled && OnlyCancels(ws[j].log, ws[k].log)
    decreases k
  {
    hide Inv, Next;
    if j < k {
      NothingOpensAfterCancel(ws, j, k - 1);
      ReachableInv(ws, k - 1);
      assert Next(ws[k - 1], ws[k]);
      CancelledStep(ws[k - 1], ws[k]);
    } else {
      ReachableInv(ws, j);
      CancelledIsRemembered(ws[j]);
    }
  }

  lemma CancelledIsRemembered(w: World)
    requires Inv(w) && w.disk.Some? && w.disk.value.status == RunCancelled
    ensures w.everCancelled
  {
  }

  // ----- a resume without failures

  function Cost(s: EntryStatus): nat {
    if s == Planned then 2 else if s == Opened then 1 else 0
  }

  /** Transactions left to send: two for a planned entry, one for an opened one. */
  function Remaining(entries: seq<EntryStatus>): nat {
    if entries == [] then 0 else Cost(entries[0]) + Remaining(entries[1..])
  }

  lemma {:induction false} RemainingUpdate(entries: seq<EntryStatus>, i: nat, s: EntryStatus)
    requires i < |entries|
    ensures Remaining(entries[i := s]) + Cost(entries[i]) == Remaining(entries) + Cost(s)
  {
    if i > 0 {
      RemainingUpdate(entries[1..], i - 1, s);
      assert entries[i := s][1..] == entries[1..][i - 1 := s];
    } else {
      assert entries[i := s][1..] == entries[1..];
    }
  }

  lemma {:induction false} RemainingBound(entries: seq<EntryStatus>)
    ensures Remaining(entries) <= 2 * |entries|
  {
    if entries != [] {
      RemainingBound(entries[1..]);
    }
  }

  /** The points of `predict resume` and of the open drive after its plan is saved. */
  predicate Driving(p: Proc) {
    match p
    case Reconcile(_, _) => true
    case SaveReconciled(_) => true
    case Drive(cmd, _, _) => cmd == PredictOpen || cmd == PredictResume
    case SaveOpened(cmd, _, _) => cmd == PredictOpen || cmd == PredictResume
    case SaveCommitted(cmd, _, _) => cmd == PredictOpen || cmd == PredictResume
    case SaveRunOpen(_) => true
    case _ => false
  }

  function Left(i: nat, mem: Run): nat {
    if i < |mem.entries| then |mem.entries| - i else 0
  }

  function Measure(p: Proc): nat {
    match p
    case Reconcile(i, mem) => 5 * |mem.entries| + 4 + Left(i, mem)
    case SaveReconciled(mem) => 2 * Remaining(mem.entries) + |mem.entries| + 3
    case Drive(_, i, mem) => 2 * Remaining(mem.entries) + Left(i, mem) + 2
    case SaveOpened(_, i, mem) => 2 * Remaining(mem.entries) + Left(i, mem) + 3
    case SaveCommitted(_, i, mem) => 2 * Remaining(mem.entries) + Left(i, mem) + 3
    case SaveRunOpen(_) => 1
    case _ => 0
  }

  /** A step of the running command that does not fail. */
  predicate SuccessStep(w: World, w': World) {
    CliStep(w, w') && (w'.proc == Idle ==> w.proc.SaveRunOpen?)
  }

  /** Deferred and cancelled entries stay as they are, and no other entry becomes one. */
  ghost predicate SameKept(a: seq<EntryStatus>, b: seq<EntryStatus>) {
    && |a| == |b|
    && forall i :: 0 <= i < |a| && (a[i] in {Deferred, Cancelled} || b[i] in {Deferred, Cancelled}) ==> a[i] == b[i]
  }

  lemma SuccessDecreases(w: World, w': World)
    requires Inv(w) && Driving(w.proc) && SuccessStep(w, w')
    ensures w'.proc == Idle || (Driving(w'.proc) && Measure(w'.proc) < Measure(w.proc) && SameKept(w.proc.mem.entries, w'.proc.mem.entries))
    ensures w'.proc == Idle ==> w'.disk == Some(w.proc.mem) && w.proc.SaveRunOpen?
  {
    hide Inv, Remaining;
    if w.proc.Drive? {
      DriveDecreases(w, w', w.proc.cmd, w.proc.i, w.proc.mem);
    } else {
      RemainingBound(w.proc.mem.entries);
    }
  }

  lemma DriveDecreases(w: World, w': World, cmd: Command, i: nat, mem: Run)
    requires w.proc == Drive(cmd, i, mem) && Driving(w.proc) && SuccessStep(w, w')
    ensures w'.proc != Idle && Driving(w'.proc) && Measure(w'.proc) < Measure(w.proc) && SameKept(mem.entries, w'.proc.mem.entries)
  {
    if i < |mem.entries| {
      RemainingUpdate(mem.entries, i, Opened);
      RemainingUpdate(mem.entries, i, Committed);
    }
    hide Remaining;
  }

  lemma SuccessPossible(w: World)
    requires Inv(w) && Driving(w.proc)
    ensures exists w' :: SuccessStep(w, w')
  {
    var mem := w.proc.mem;
    match w.proc
    case Reconcile(i, _) =>
      var next := if i >= |mem.entries| then SaveReconciled(mem)
                  else if Pending(mem.entries[i]) then Reconcile(i + 1, SetEntry(mem, i, Reconciled(w.chain, i)))
                  else Reconcile(i + 1, mem);
      assert SuccessStep(w, w.(proc := next));
    case SaveReconciled(_) => assert SuccessStep(w, Saved(w, mem, Drive(PredictResume, 0, mem)));
    case SaveOpened(cmd, i, _) => assert SuccessStep(w, Saved(w, mem, Drive(cmd, i, mem)));
    case SaveCommitted(cmd, i, _) => assert SuccessStep(w, Saved(w, mem, Drive(cmd, i + 1, mem)));
    case SaveRunOpen(_) => assert SuccessStep(w, Saved(w, mem, Idle));
    case Drive(cmd, i, _) =>
      if i < |mem.entries| && Pending(mem.entries[i]) {
        DriveSends(w, cmd, i, mem);
        var kind := if mem.entries[i] == Planned then OpenJob else CommitInput;
        var next := if mem.entries[i] == Planned then SaveOpened(cmd, i, SetEntry(mem, i, Opened))
                    else SaveCommitted(cmd, i, SetEntry(mem, i, Committed));
        assert SuccessStep(w, w.(chain := Effect(w.chain, kind, i), log := w.log + [Tx(kind, i, cmd, true, true)], proc := next));
      } else {
        assert SuccessStep(w, w.(proc := if i < |mem.entries| then Drive(cmd, i + 1, mem) else SaveRunOpen(mem.(status := Open))));
      }
  }

  function Saved(w: World, mem: Run, next: Proc): World {
    w.(disk := Some(mem), proc := next, everCancelled := w.everCancelled || mem.status == RunCancelled)
  }

  ghost predicate WorkStep(w: World, w': World) {
    exists i: nat, to: JobStatus :: Work(w, w', i, to)
  }

  /** A run in which nothing fails: the command's own steps succeed, workers move in between. */
  ghost predicate FailureFree(ws: seq<World>) {
    |ws| > 0 && forall i :: 0 <= i < |ws| - 1 ==> SuccessStep(ws[i], ws[i + 1]) || WorkStep(ws[i], ws[i + 1])
  }

  /** The steps of the command among those of the run. */
  ghost function CommandSteps(ws: seq<World>): nat
    requires |ws| > 0
  {
    if |ws| == 1 then 0
    else CommandSteps(ws[..|ws| - 1]) + (if WorkStep(ws[|ws| - 2], ws[|ws| - 1]) then 0 else 1)
  }

  /** What a finished open or resume leaves behind: the run open, every entry that was not deferred or
      cancelled committed. */
  ghost predicate Complete(start: Run, end: Option<Run>) {
    && end.Some? && end.value.status == Open && |end.value.entries| == |start.entries|
    && forall i :: 0 <= i < |start.entries| ==>
         end.value.entries[i] == if start.entries[i] in {Deferred, Cancelled} then start.entries[i] else Committed
  }

  lemma QuietStepFacts(w: World, w': World, start: Run)
    requires Inv(w) && (SuccessStep(w, w') || WorkStep(w, w'))
    requires Driving(w.proc) && SameKept(start.entries, w.proc.mem.entries)
    ensures Inv(w')
    ensures WorkStep(w, w') ==> w'.proc == w.proc
    ensures !WorkStep(w, w') ==>
              || (w'.proc == Idle && Measure(w.proc) == 1 && Complete(start, w'.disk))
              || (w'.proc != Idle && Driving(w'.proc) && Measure(w'.proc) < Measure(w.proc) && SameKept(start.entries, w'.proc.mem.entries))
  {
    if WorkStep(w, w') {
      var i: nat, to: JobStatus :| Work(w, w', i, to);
      WorkKeepsInv(w, w', i, to);
    } else {
      CliStepKeepsInv(w, w');
      SuccessDecreases(w, w');
      if w'.proc == Idle {
        FinalManifest(w, start);
      }
      hide Inv, SuccessStep, Measure;
      if w'.proc != Idle {
        SameKeptTransitive(start.entries, w.proc.mem.entries, w'.proc.mem.entries);
      }
    }
  }

  lemma SameKeptTransitive(a: seq<EntryStatus>, b: seq<EntryStatus>, c: seq<EntryStatus>)
    requires SameKept(a, b) && SameKept(b, c)
    ensures SameKept(a, c)
  {
  }

  lemma FinalManifest(w: World, start: Run)
    requires Inv(w) && w.proc.SaveRunOpen? && SameKept(start.entries, w.proc.mem.entries)
    ensures Complete(start, Some(w.proc.mem)) && Measure(w.proc) == 1
  {
  }

  /** A failure-free open drive or resume, from any reachable state, takes at most `Measure` steps, and
      when it ends the run is open with every entry not deferred or cancelled committed.  With
      `SuccessPossible` it always ends: whenever the command is not done it has a step to take. */
  lemma {:induction false} FailureFreeRunCompletes(ws: seq<World>)
    requires FailureFree(ws) && Inv(ws[0]) && Driving(ws[0].proc)
    ensures var last := ws[|ws| - 1];
            && Inv(last)
            && (last.proc == Idle ==> Complete(ws[0].proc.mem, last.disk) && CommandSteps(ws) <= Measure(ws[0].proc))
            && (last.proc != Idle ==>
                  && Driving(last.proc) && CommandSteps(ws) + Measure(last.proc) <= Measure(ws[0].proc)
                  && SameKept(ws[0].proc.mem.entries, last.proc.mem.entries))
    decreases |ws|
  {
    hide Inv, SuccessStep, Measure, Complete;
    if |ws| > 1 {
      var before := ws[..|ws| - 1];
      var w, w' := ws[|ws| - 2], ws[|ws| - 1];
      FailureFreeRunCompletes(before);
      if w.proc != Idle {
        QuietStepFacts(w, w', ws[0].proc.mem);
      } else {
        IdleStaysIdle(w, w');
      }
    } else {
      SameKeptReflexive(ws[0].proc.mem.entries);
    }
  }

  lemma SameKeptReflexive(a: seq<EntryStatus>)
    ensures SameKept(a, a)
  {
  }

  lemma IdleStaysIdle(w: World, w': World)
    requires Inv(w) && w.proc == Idle && (SuccessStep(w, w') || WorkStep(w, w'))
    ensures Inv(w') && w'.proc == Idle && w'.disk == w.disk && WorkStep(w, w')
  {
    var i: nat, to: JobStatus :| Work(w, w', i, to);
    WorkKeepsInv(w, w', i, to);
  }
}

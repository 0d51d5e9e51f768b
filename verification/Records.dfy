/** What the records of tasks and leases say: which moments, exit codes and messages each operation
    leaves behind, and what a reachable database's records allow one to conclude. */
module Records {
  import opened Prelude
  import opened Planner
  import opened StoreSpec
  import opened StoreInvariant

  const RECOVERED := "stale lease recovered (PID identity no longer exists)"

  // ---- One operation ----------------------------------------------------------------------------

  /** A finish with the lease's identity releases the lease with its GPUs and records the exit: a running
      task is completed exactly by exit code 0, a task being cancelled ends up cancelled whatever the code. */
  lemma FinishRecords(db: Tables, t: TaskId, code: int, error: Option<string>, now: int)
    requires Consistent(db) && Holding(db, t) && db.leases[t].pid.Some?
    ensures var lease := db.leases[t];
            var end := Step(db, Finish(t, lease.pid, lease.pidStart, code, error, now));
            && t in db.tasks && t in end.tasks && t in end.leases
            && (db.tasks[t].status == Running || db.tasks[t].status == Cancelling)
            && end.tasks[t] == db.tasks[t].(status := if db.tasks[t].status == Cancelling then Cancelled
                                                      else if code == 0 then Completed else Failed,
                                            finishedAt := Some(now), exitCode := Some(code), error := error)
            && end.leases[t] == lease.(active := false, releasedAt := Some(now)) && GpusOf(end, t) == []
  {
    assert Shaped(db, t);
    GpusWithout(db.rows, {t}, t);
  }

  /** Cancelling a task that no process has claimed ends it with exit code 130 and gives back what was
      reserved; a running one is only marked, and one that is over or already being cancelled is left alone. */
  lemma CancelRecords(db: Tables, t: TaskId, now: int)
    requires Consistent(db) && t in db.tasks
    ensures var k := db.tasks[t];
            var end := Step(db, Cancel(t, now));
            && t in end.tasks
            && end.tasks[t] == match k.status
                               case Queued => CancelledEarly(k, now)
                               case Launching => CancelledEarly(k, now)
                               case Running => k.(status := Cancelling, error := Some("cancel requested"))
                               case _ => k
    ensures var end := Step(db, Cancel(t, now));
            db.tasks[t].status == Launching ==>
              t in end.leases && end.leases[t] == db.leases[t].(active := false, releasedAt := Some(now))
              && GpusOf(end, t) == []
    ensures db.tasks[t].status != Launching ==>
              Step(db, Cancel(t, now)).leases == db.leases && Step(db, Cancel(t, now)).rows == db.rows
  {
    assert Shaped(db, t);
    GpusWithout(db.rows, {t}, t);
    if !Holding(db, t) {
      NoRowsToDelete(db, t);
    }
  }

  /** A cancel request hands out the lease whose process is to be signalled, if there is one; for a task that
      is over, whatever lease it once had. */
  lemma CancelReturns(db: Tables, t: TaskId, now: int)
    requires Consistent(db) && t in db.tasks
    ensures RequestCancel(db, t, now).Ok?
    ensures RequestCancel(db, t, now).value.1
            == if db.tasks[t].status in {Queued, Launching} || t !in db.leases then None else Some(db.leases[t])
  {
    assert Shaped(db, t);
  }

  function CancelledEarly(k: Task, now: int): Task {
    k.(status := Cancelled, finishedAt := Some(now), exitCode := Some(130), error := Some("cancelled before start"))
  }

  /** The lease's process is gone, or its PID belongs to another process by now, or nobody has claimed the
      lease for the whole timeout. */
  predicate Lost(lease: Lease, now: int, timeout: int, procs: Procs) {
    match lease.pid
    case None => lease.reservedAt + timeout <= now
    case Some(p) => p < 1 || p !in procs || lease.pidStart != Some(procs[p])
  }

  /** Recovery ends exactly the tasks whose lease is lost, as failed, or as cancelled when cancellation
      was under way, without an exit code; every other task, with its lease and GPUs, is left alone. */
  lemma RecoveryRecords(db: Tables, now: int, timeout: int, procs: Procs, t: TaskId)
    requires Consistent(db) && t in db.tasks
    ensures var k := db.tasks[t];
            var end := Step(db, Recover(now, timeout, procs));
            if t in db.leases && db.leases[t].active && Lost(db.leases[t], now, timeout, procs) then
              && t in end.tasks && t in end.leases && GpusOf(end, t) == []
              && end.tasks[t] == k.(status := if k.status == Cancelling then Cancelled else Failed,
                                    finishedAt := Some(now), exitCode := None, error := Some(RECOVERED))
              && end.leases[t] == db.leases[t].(active := false, releasedAt := Some(now))
            else
              && t in end.tasks && end.tasks[t] == k && GpusOf(end, t) == GpusOf(db, t)
              && (t in end.leases <==> t in db.leases) && (t in db.leases ==> end.leases[t] == db.leases[t])
  {
    GpusWithout(db.rows, StaleTasks(db, now, timeout, procs), t);
  }

  /** A request is accepted exactly with a command, an existing directory, plausible sizes and a new id,
      and then queued with these very values. */
  lemma AddRecords(db: Tables, op: Op)
    requires op.Add?
    ensures Apply(db, op).Ok?
            <==> && op.argvGiven && op.cwdExists && op.t !in db.tasks && op.minGpus >= 1
                 && (op.maxGpus.None? || op.maxGpus.value >= op.minGpus)
    ensures Apply(db, op) == Err(DuplicateKey) ==> op.t in db.tasks
    ensures Apply(db, op) == Err(BadRequest)
            <==> || !op.argvGiven || !op.cwdExists || op.minGpus < 1
                 || (op.maxGpus.Some? && op.maxGpus.value < op.minGpus)
    ensures Apply(db, op).Ok? ==>
              var end := Step(db, op);
              && end.leases == db.leases && end.rows == db.rows && end.signature == db.signature
              && end.tasks.Keys == db.tasks.Keys + {op.t}
              && (forall u :: u in db.tasks ==> end.tasks[u] == db.tasks[u])
              && end.tasks[op.t].status == Queued
              && end.tasks[op.t].minGpus == op.minGpus && end.tasks[op.t].maxGpus == op.maxGpus
              && end.tasks[op.t].priority == op.priority && end.tasks[op.t].createdAt == op.now
  {
  }

  // ---- Refusals ---------------------------------------------------------------------------------

  /** No operation accepts a task that it does not know, and all of them say so. */
  lemma UnknownTask(db: Tables, t: TaskId, pid: Pid, start: Option<int>, procs: Procs, code: int, now: int)
    requires Consistent(db) && t !in db.tasks
    ensures ClaimTask(db, t, pid, procs, now) == Err(TaskNotFound)
    ensures FinishTask(db, t, Some(pid), start, code, None, now) == Err(TaskNotFound)
    ensures RequestCancel(db, t, now) == Err(TaskNotFound)
    ensures UpdateLeasePid(db, t, pid, pid, start) == Err(NoActiveLease)
  {
  }

  /** There is nothing to claim, and no error either, exactly for a task that waits, is being cancelled, or
      is over. */
  lemma NothingToClaimExactly(db: Tables, t: TaskId, pid: Pid, procs: Procs, now: int)
    requires Consistent(db) && t in db.tasks
    ensures ClaimTask(db, t, pid, procs, now) == Ok((db, None))
            <==> db.tasks[t].status in {Queued, Cancelling, Completed, Failed, Cancelled}
  {
    assert Shaped(db, t);
  }

  /** A process that is not the one recorded in an active lease can neither finish the task nor hand the
      lease over; without an active lease there is nothing to hand over. */
  lemma StrangersAreRefused(db: Tables, t: TaskId, pid: Option<Pid>, start: Option<int>, code: int, now: int,
                            supervisor: Pid, child: Pid)
    requires Consistent(db) && t in db.tasks
    ensures FinishTask(db, t, pid, start, code, None, now) == Err(TaskBusy)
            <==> && t in db.leases && db.leases[t].active
                 && !(pid.Some? && db.leases[t].pid == pid && db.leases[t].pidStart == start)
    ensures FinishTask(db, t, pid, start, code, None, now).Err? ==>
              FinishTask(db, t, pid, start, code, None, now).error == TaskBusy
    ensures UpdateLeasePid(db, t, supervisor, child, start) == Err(NoActiveLease)
            <==> !(t in db.leases && db.leases[t].active)
    ensures UpdateLeasePid(db, t, supervisor, child, start) == Err(TaskBusy)
            <==> t in db.leases && db.leases[t].active && db.leases[t].pid != Some(supervisor)
  {
  }

  /** Why an inventory is refused: it is empty or lists a GPU twice, or it differs from the stored one while
      some task holds a lease. */
  lemma InventoryRefusals(db: Tables, gpus: seq<GpuId>)
    ensures ValidateSignature(db, gpus) == Err(BadInventory) <==> gpus == [] || !Distinct(gpus)
    ensures ValidateSignature(db, gpus) == Err(InventoryChanged)
            <==> && gpus != [] && Distinct(gpus) && db.signature.Some?
                 && !(forall g :: g in gpus <==> g in db.signature.value)
                 && exists t :: t in db.leases && db.leases[t].active
  {
    if db.signature.Some? {
      SameInventory(gpus, db.signature.value);
    }
    SomeTask(ActiveTasks(db));
    if t :| t in db.leases && db.leases[t].active {
      assert t in ActiveTasks(db);
    }
  }

  lemma SameInventory(gpus: seq<GpuId>, stored: set<GpuId>)
    ensures stored == (set g | g in gpus) <==> forall g :: g in gpus <==> g in stored
  {
    if forall g :: g in gpus <==> g in stored {
      assert stored == set g | g in gpus;
    }
  }

  // ---- What the records of a reachable database say -----------------------------------------------

  /** The moments, the exit code and the message go with the status. */
  predicate TaskDocumented(k: Task) {
    match k.status
    case Queued => k.startedAt.None? && k.finishedAt.None? && k.exitCode.None? && k.error.None?
    case Launching => k.startedAt.None? && k.finishedAt.None? && k.exitCode.None? && k.error.None?
    case Running => k.startedAt.Some? && k.finishedAt.None? && k.exitCode.None? && k.error.None?
    case Cancelling =>
      k.startedAt.Some? && k.finishedAt.None? && k.exitCode.None? && k.error == Some("cancel requested")
    case Completed => k.finishedAt.Some? && k.exitCode == Some(0)
    case Failed => k.finishedAt.Some? && k.exitCode != Some(0) && (k.exitCode.None? ==> k.error == Some(RECOVERED))
    case Cancelled => k.finishedAt.Some? && (k.exitCode.None? ==> k.error == Some(RECOVERED))
  }

  /** A lease has been claimed exactly when it names a process, and released exactly when it is not active. */
  predicate LeaseDocumented(l: Lease) {
    && (l.pid.None? <==> l.claimedAt.None?) && (l.pid.None? ==> l.pidStart.None?)
    && (l.active <==> l.releasedAt.None?)
  }

  ghost predicate Documented(db: Tables) {
    && (forall t :: t in db.tasks ==> TaskDocumented(db.tasks[t]))
    && (forall t :: t in db.leases ==> LeaseDocumented(db.leases[t]))
  }

  lemma {:induction false} InsertAllDocuments(db: Tables, allocs: seq<Allocation>, now: int)
    requires Documented(db) && (forall a :: a in allocs ==> a.id in db.tasks) && InsertAll(db, allocs, now).Ok?
    ensures Documented(InsertAll(db, allocs, now).value)
    decreases |allocs|
  {
    if allocs != [] {
      InsertAllDocuments(InsertLease(db, allocs[0], now).value, allocs[1..], now);
    }
  }

  lemma ReleaseDocuments(db: Tables, t: TaskId, status: Status, code: Option<int>, error: Option<string>, now: int)
    requires Documented(db) && t in db.tasks
    requires TaskDocumented(db.tasks[t].(status := status, finishedAt := Some(now), exitCode := code, error := error))
    ensures Documented(ReleaseLease(db, t, status, code, error, now))
  {
  }

  lemma RecoverDocuments(db: Tables, now: int, timeout: int, procs: Procs)
    requires Consistent(db) && Documented(db)
    ensures Documented(RecoverStale(db, now, timeout, procs))
  {
  }

  lemma ClaimDocuments(db: Tables, op: Op)
    requires Consistent(db) && Documented(db) && op.Claim?
    ensures Documented(Step(db, op))
  {
    if op.t in db.tasks {
      assert Shaped(db, op.t);
    }
  }

  lemma BindDocuments(db: Tables, op: Op)
    requires Documented(db) && op.Bind?
    ensures Documented(Step(db, op))
  {
  }

  lemma CancelDocuments(db: Tables, op: Op)
    requires Consistent(db) && Documented(db) && op.Cancel? && Apply(db, op).Ok?
    ensures Documented(Step(db, op))
  {
    assert Shaped(db, op.t);
    if db.tasks[op.t].status == Queued || db.tasks[op.t].status == Launching {
      ReleaseDocuments(db, op.t, Cancelled, Some(130), Some("cancelled before start"), op.now);
    }
  }

  lemma AllocateDocuments(db: Tables, op: Op)
    requires Documented(db) && op.Allocate? && Apply(db, op).Ok?
    ensures Documented(Step(db, op))
  {
    var inp := PlanInput(db, op.free, op.total, op.external, op.reserve, op.strict);
    InsertAllDocuments(db, Plan(inp).value, op.now);
  }

  lemma FinishDocuments(db: Tables, op: Op)
    requires Documented(db) && op.Finish? && Apply(db, op).Ok?
    ensures Documented(Step(db, op))
  {
    ReleaseDocuments(db, op.t, FinalStatus(db.tasks[op.t], op.exitCode), Some(op.exitCode), op.error, op.now);
  }

  lemma StepDocuments(db: Tables, op: Op)
    requires Consistent(db) && Documented(db)
    ensures Documented(Step(db, op))
  {
    if Apply(db, op).Ok? {
      match op
      case Add(_, _, _, _, _, _, _) =>
      case Validate(_) =>
      case Allocate(_, _, _, _, _, _) => AllocateDocuments(db, op);
      case Claim(_, _, _, _) => ClaimDocuments(db, op);
      case Bind(_, _, _, _) => BindDocuments(db, op);
      case Finish(_, _, _, _, _, _) => FinishDocuments(db, op);
      case Cancel(_, _) => CancelDocuments(db, op);
      case Recover(now, timeout, procs) => RecoverDocuments(db, now, timeout, procs);
    }
  }

  /** In every reachable database the records speak the truth: a task is recorded as completed only with
      exit code 0 and as failed only without it, a missing exit code means recovery, only started tasks run,
      and leases carry a process exactly since their claim and a release time exactly since their end. */
  lemma {:induction false} RunDocuments(db: Tables, ops: seq<Op>)
    requires Consistent(db) && Documented(db)
    ensures Documented(Run(db, ops))
    decreases |ops|
  {
    if ops != [] {
      StepKeeps(db, ops[0]);
      StepDocuments(db, ops[0]);
      RunDocuments(Step(db, ops[0]), ops[1..]);
    }
  }

  lemma ReachableDocumented(ops: seq<Op>)
    ensures Documented(Run(EMPTY, ops))
  {
    RunDocuments(EMPTY, ops);
  }
}

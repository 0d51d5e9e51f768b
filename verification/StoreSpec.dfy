/** The queue database as a value: the task, lease and lease-GPU tables, the stored inventory
    signature, and what every store operation does to them.

    A lease is keyed by its task, which the schema declares unique among leases. The process table
    is the Linux view: a PID that is present carries its start time. */
module StoreSpec {
  import opened Prelude
  import opened Planner

  type Pid = int
  type Procs = map<Pid, int>

  datatype Status = Queued | Launching | Running | Cancelling | Completed | Failed | Cancelled

  datatype Task = Task(status: Status, minGpus: int, maxGpus: Option<int>, priority: int, createdAt: int,
                       startedAt: Option<int>, finishedAt: Option<int>, exitCode: Option<int>, error: Option<string>)

  datatype Lease = Lease(active: bool, pid: Option<Pid>, pidStart: Option<int>, reservedAt: int,
                         claimedAt: Option<int>, releasedAt: Option<int>)

  datatype GpuRow = GpuRow(task: TaskId, gpu: GpuId, ordinal: nat)

  datatype Tables = Tables(tasks: map<TaskId, Task>, leases: map<TaskId, Lease>, rows: seq<GpuRow>,
                           signature: Option<set<GpuId>>)

  datatype StoreError =
    | BadRequest | DuplicateKey | TaskNotFound | NoActiveLease | TaskBusy
    | BadInventory | InventoryChanged | LeaseOutsideInventory | PlanRefused(reason: PlanError)

  const EMPTY := Tables(map[], map[], [], None)

  predicate Terminal(s: Status) {
    s == Completed || s == Failed || s == Cancelled
  }

  // ---- Process identity ---------------------------------------------------------------------

  function StartTime(procs: Procs, pid: Pid): Option<int> {
    if pid >= 1 && pid in procs then Some(procs[pid]) else None
  }

  /** The PID is alive and is still the process that was recorded. */
  predicate PidMatches(procs: Procs, pid: Option<Pid>, start: Option<int>) {
    pid.Some? && pid.value >= 1 && pid.value in procs && start == Some(procs[pid.value])
  }

  // ---- Queries ----------------------------------------------------------------------------

  predicate Holding(db: Tables, t: TaskId) {
    t in db.leases && db.leases[t].active
  }

  function ActiveTasks(db: Tables): set<TaskId> {
    set t | t in db.leases && db.leases[t].active
  }

  function ActiveGpus(db: Tables): set<GpuId> {
    set r | r in db.rows && Holding(db, r.task) :: r.gpu
  }

  function GpusIn(rows: seq<GpuRow>, t: TaskId): seq<GpuId> {
    if rows == [] then []
    else (if rows[0].task == t then [rows[0].gpu] else []) + GpusIn(rows[1..], t)
  }

  /** The GPUs recorded for a task, in the order of their ordinals. */
  function GpusOf(db: Tables, t: TaskId): seq<GpuId> {
    GpusIn(db.rows, t)
  }

  function QueuedTasks(db: Tables): set<TaskId> {
    set t | t in db.tasks && db.tasks[t].status == Queued
  }

  function RequestOf(db: Tables, t: TaskId): Request
    requires t in db.tasks
  {
    var k := db.tasks[t];
    Request(t, k.minGpus, k.maxGpus, k.priority, k.createdAt)
  }

  lemma SomeTask(s: set<TaskId>)
    ensures s == {} || exists x :: x in s
  {
    if forall x :: x !in s {
      assert s == {};
    }
  }

  ghost function Listing(s: set<TaskId>): (r: seq<TaskId>)
    ensures |r| == |s| && Distinct(r) && forall x :: x in r <==> x in s
  {
    if s == {} then []
    else
      SomeTask(s);
      var x :| x in s;
      [x] + Listing(s - {x})
  }

  /** The queued requests in some order; the planner sorts them. */
  ghost function Waiting(db: Tables): seq<Request> {
    var ids := Listing(QueuedTasks(db));
    seq(|ids|, i requires 0 <= i < |ids| => assert ids[i] in ids; RequestOf(db, ids[i]))
  }

  // ---- Operations -------------------------------------------------------------------------

  function AddTask(db: Tables, t: TaskId, minGpus: int, maxGpus: Option<int>, priority: int, now: int,
                   argvGiven: bool, cwdExists: bool): Result<Tables, StoreError>
  {
    if !argvGiven || minGpus < 1 || (maxGpus.Some? && maxGpus.value < minGpus) || !cwdExists then Err(BadRequest)
    else if t in db.tasks then Err(DuplicateKey)
    else Ok(db.(tasks := db.tasks[t := Task(Queued, minGpus, maxGpus, priority, now, None, None, None, None)]))
  }

  /** The stored signature may change only while no lease is active. */
  function ValidateSignature(db: Tables, uuids: seq<GpuId>): Result<Tables, StoreError> {
    var current := set g | g in uuids;
    if !Distinct(uuids) || uuids == [] then Err(BadInventory)
    else if db.signature.Some? && db.signature.value != current && ActiveTasks(db) != {} then Err(InventoryChanged)
    else Ok(db.(signature := Some(current)))
  }

  function RowsFor(a: Allocation): seq<GpuRow> {
    seq(|a.gpus|, i requires 0 <= i < |a.gpus| => GpuRow(a.id, a.gpus[i], i))
  }

  predicate GpuTaken(rows: seq<GpuRow>, g: GpuId) {
    exists i :: 0 <= i < |rows| && rows[i].gpu == g
  }

  /** Insert one lease with its GPU rows; a second lease for a task or a GPU already recorded violates
      a uniqueness constraint. */
  function InsertLease(db: Tables, a: Allocation, now: int): Result<Tables, StoreError>
    requires a.id in db.tasks
  {
    if a.id in db.leases || !Distinct(a.gpus) || (exists i :: 0 <= i < |a.gpus| && GpuTaken(db.rows, a.gpus[i]))
    then Err(DuplicateKey)
    else
      var k := db.tasks[a.id];
      Ok(db.(leases := db.leases[a.id := Lease(true, None, None, now, None, None)],
             rows := db.rows + RowsFor(a),
             tasks := db.tasks[a.id := if k.status == Queued then k.(status := Launching) else k]))
  }

  function InsertAll(db: Tables, allocs: seq<Allocation>, now: int): Result<Tables, StoreError>
    requires forall a :: a in allocs ==> a.id in db.tasks
    decreases |allocs|
  {
    if allocs == [] then Ok(db)
    else
      match InsertLease(db, allocs[0], now)
      case Err(e) => Err(e)
      case Ok(next) => InsertAll(next, allocs[1..], now)
  }

  ghost function PlanInput(db: Tables, free: seq<GpuId>, total: int, external: int, reserve: int, strict: bool): Input {
    Input(free, Waiting(db), total, |ActiveTasks(db)|, external, reserve, strict)
  }

  ghost function AllocateBatch(db: Tables, free: seq<GpuId>, total: int, external: int, reserve: int, strict: bool,
                               now: int): Result<Tables, StoreError>
  {
    match Plan(PlanInput(db, free, total, external, reserve, strict))
    case Err(e) => Err(PlanRefused(e))
    case Ok(allocs) =>
      if forall a :: a in allocs ==> a.id in db.tasks then InsertAll(db, allocs, now) else Err(DuplicateKey)
  }

  /** Claim a reserved task for the calling process; `None` when there is nothing to claim. */
  function ClaimTask(db: Tables, t: TaskId, pid: Pid, procs: Procs, now: int)
    : Result<(Tables, Option<Lease>), StoreError>
  {
    if t !in db.tasks then Err(TaskNotFound)
    else
      var k := db.tasks[t];
      if k.status == Queued || Terminal(k.status) || k.status == Cancelling then Ok((db, None))
      else if !Holding(db, t) then Err(NoActiveLease)
      else
        var lease := db.leases[t];
        if lease.pid.Some? then
          if lease.pid == Some(pid) && PidMatches(procs, Some(pid), lease.pidStart) then Ok((db, Some(lease)))
          else Err(TaskBusy)
        else
          var claimed := lease.(pid := Some(pid), pidStart := StartTime(procs, pid), claimedAt := Some(now));
          var k' := if k.status == Launching then k.(status := Running, startedAt := Some(now)) else k;
          Ok((db.(leases := db.leases[t := claimed], tasks := db.tasks[t := k']), Some(claimed)))
  }

  /** Hand a claimed lease from the supervisor to its child. */
  function UpdateLeasePid(db: Tables, t: TaskId, supervisor: Pid, pid: Pid, start: Option<int>)
    : Result<Tables, StoreError>
  {
    if !Holding(db, t) then Err(NoActiveLease)
    else if db.leases[t].pid != Some(supervisor) then Err(TaskBusy)
    else Ok(db.(leases := db.leases[t := db.leases[t].(pid := Some(pid), pidStart := start)]))
  }

  function Without(rows: seq<GpuRow>, gone: set<TaskId>): seq<GpuRow> {
    if rows == [] then []
    else (if rows[0].task in gone then [] else [rows[0]]) + Without(rows[1..], gone)
  }

  /** Give the GPUs of a task's active lease back, if it has one, and set the task's final status. */
  function ReleaseLease(db: Tables, t: TaskId, status: Status, exitCode: Option<int>, error: Option<string>, now: int)
    : Tables
  {
    var freed :=
      if Holding(db, t) then
        db.(rows := Without(db.rows, {t}),
            leases := db.leases[t := db.leases[t].(active := false, releasedAt := Some(now))])
      else db;
    if t in db.tasks then
      freed.(tasks := db.tasks[t := db.tasks[t].(status := status, finishedAt := Some(now),
                                                 exitCode := exitCode, error := error)])
    else freed
  }

  function FinalStatus(k: Task, exitCode: int): Status {
    if k.status == Cancelling then Cancelled else if exitCode == 0 then Completed else Failed
  }

  function FinishTask(db: Tables, t: TaskId, pid: Option<Pid>, start: Option<int>, exitCode: int,
                      error: Option<string>, now: int): Result<Tables, StoreError>
  {
    if t !in db.tasks then Err(TaskNotFound)
    else if Holding(db, t) && (pid.None? || db.leases[t].pid != pid || db.leases[t].pidStart != start)
    then Err(TaskBusy)
    else Ok(ReleaseLease(db, t, FinalStatus(db.tasks[t], exitCode), Some(exitCode), error, now))
  }

  function RequestCancel(db: Tables, t: TaskId, now: int): Result<(Tables, Option<Lease>), StoreError> {
    if t !in db.tasks then Err(TaskNotFound)
    else
      var k := db.tasks[t];
      if Terminal(k.status) then Ok((db, if t in db.leases then Some(db.leases[t]) else None))
      else if (k.status == Queued || k.status == Launching) && (!Holding(db, t) || db.leases[t].pid.None?) then
        Ok((ReleaseLease(db, t, Cancelled, Some(130), Some("cancelled before start"), now), None))
      else if !Holding(db, t) then Err(NoActiveLease)
      else
        var k' := if k.status == Running then k.(status := Cancelling, error := Some("cancel requested")) else k;
        Ok((db.(tasks := db.tasks[t := k']), Some(db.leases[t])))
  }

  /** A lease is stale when its recorded process is gone, or, before any claim, after the timeout. */
  predicate Stale(l: Lease, now: int, timeout: int, procs: Procs) {
    if l.pid.None? then now - l.reservedAt >= timeout else !PidMatches(procs, l.pid, l.pidStart)
  }

  function StaleTasks(db: Tables, now: int, timeout: int, procs: Procs): set<TaskId> {
    set t | t in db.leases && db.leases[t].active && Stale(db.leases[t], now, timeout, procs)
  }

  function Recovered(k: Task, now: int): Task {
    k.(status := if k.status == Cancelling then Cancelled else Failed, finishedAt := Some(now), exitCode := None,
       error := Some("stale lease recovered (PID identity no longer exists)"))
  }

  /** Release all stale leases at once. */
  function RecoverTasks(db: Tables, gone: set<TaskId>, now: int): Tables {
    db.(rows := Without(db.rows, gone),
        leases := map t | t in db.leases ::
          if t in gone then db.leases[t].(active := false, releasedAt := Some(now)) else db.leases[t],
        tasks := map t | t in db.tasks :: if t in gone then Recovered(db.tasks[t], now) else db.tasks[t])
  }

  function RecoverStale(db: Tables, now: int, timeout: int, procs: Procs): Tables {
    RecoverTasks(db, StaleTasks(db, now, timeout, procs), now)
  }
}

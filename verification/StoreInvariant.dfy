/** What every run of store operations keeps, whatever their arguments: task status matches lease
    shape, no GPU sits in two leases, a task's rank never falls, and a lease is granted at most once. */
module StoreInvariant {
  import opened Prelude
  import opened Planner
  import opened PlannerTheorems
  import opened StoreSpec
  import opened StateStores

  // ---- Operations as data -------------------------------------------------------------------

  datatype Op =
    | Add(t: TaskId, minGpus: int, maxGpus: Option<int>, priority: int, now: int, argvGiven: bool, cwdExists: bool)
    | Validate(uuids: seq<GpuId>)
    | Allocate(free: seq<GpuId>, total: int, external: int, reserve: int, strict: bool, now: int)
    | Claim(t: TaskId, self: Pid, procs: Procs, now: int)
    | Bind(t: TaskId, supervisor: Pid, child: Pid, childStart: Option<int>)
    | Finish(t: TaskId, pid: Option<Pid>, start: Option<int>, exitCode: int, error: Option<string>, now: int)
    | Cancel(t: TaskId, now: int)
    | Recover(now: int, timeout: int, procs: Procs)

  ghost function Apply(db: Tables, op: Op): Result<Tables, StoreError> {
    match op
    case Add(t, lo, hi, priority, now, argv, cwd) => AddTask(db, t, lo, hi, priority, now, argv, cwd)
    case Validate(uuids) => ValidateSignature(db, uuids)
    case Allocate(free, total, external, reserve, strict, now) =>
      AllocateBatch(db, free, total, external, reserve, strict, now)
    case Claim(t, self, procs, now) =>
      (match ClaimTask(db, t, self, procs, now) case Ok(p) => Ok(p.0) case Err(e) => Err(e))
    case Bind(t, supervisor, child, start) => UpdateLeasePid(db, t, supervisor, child, start)
    case Finish(t, pid, start, code, error, now) => FinishTask(db, t, pid, start, code, error, now)
    case Cancel(t, now) => (match RequestCancel(db, t, now) case Ok(p) => Ok(p.0) case Err(e) => Err(e))
    case Recover(now, timeout, procs) => Ok(RecoverStale(db, now, timeout, procs))
  }

  /** A refused operation is rolled back. */
  ghost function Step(db: Tables, op: Op): Tables {
    match Apply(db, op)
    case Ok(next) => next
    case Err(_) => db
  }

  ghost function Run(db: Tables, ops: seq<Op>): Tables
    decreases |ops|
  {
    if ops == [] then db else Run(Step(db, ops[0]), ops[1..])
  }

  lemma {:induction false} RunConcat(db: Tables, a: seq<Op>, b: seq<Op>)
    ensures Run(db, a + b) == Run(Run(db, a), b)
    decreases |a|
  {
    if a == [] {
      assert a + b == b;
    } else {
      assert (a + b)[1..] == a[1..] + b;
      RunConcat(Step(db, a[0]), a[1..], b);
    }
  }

  // ---- The invariant ------------------------------------------------------------------------

  /** Task status and lease shape agree. */
  ghost predicate Shaped(db: Tables, t: TaskId)
    requires t in db.tasks
  {
    match db.tasks[t].status
    case Queued => t !in db.leases
    case Launching => Holding(db, t) && db.leases[t].pid.None?
    case Running => Holding(db, t) && db.leases[t].pid.Some?
    case Cancelling => Holding(db, t) && db.leases[t].pid.Some?
    case _ => !Holding(db, t)
  }

  predicate FitsRequest(k: Task, n: int) {
    k.minGpus <= n && (k.maxGpus.Some? ==> n <= k.maxGpus.value)
  }

  ghost predicate Sized(db: Tables, t: TaskId)
    requires t in db.tasks
  {
    var k := db.tasks[t];
    && 1 <= k.minGpus && (k.maxGpus.Some? ==> k.minGpus <= k.maxGpus.value)
    && (Holding(db, t) ==> FitsRequest(k, |GpusOf(db, t)|))
  }

  ghost predicate Apart(a: GpuRow, b: GpuRow) {
    a.gpu != b.gpu && (a.task == b.task ==> a.ordinal < b.ordinal)
  }

  /** No GPU is recorded twice, and a task's GPUs are listed by ascending ordinal. */
  ghost predicate RowsApart(rows: seq<GpuRow>) {
    forall i, j :: 0 <= i < j < |rows| ==> Apart(rows[i], rows[j])
  }

  ghost predicate Consistent(db: Tables) {
    && (forall t :: t in db.leases ==> t in db.tasks)
    && (forall t :: t in db.tasks ==> Shaped(db, t) && Sized(db, t))
    && (forall r :: r in db.rows ==> Holding(db, r.task))
    && RowsApart(db.rows)
  }

  function Rank(s: Status): int {
    match s
    case Queued => 0
    case Launching => 1
    case Running => 2
    case Cancelling => 3
    case _ => 4
  }

  ghost predicate TaskEvolves(a: Task, b: Task) {
    && Rank(a.status) <= Rank(b.status)
    && a.minGpus == b.minGpus && a.maxGpus == b.maxGpus && a.priority == b.priority && a.createdAt == b.createdAt
  }

  ghost predicate LeaseEvolves(a: Tables, b: Tables, t: TaskId)
    requires t in a.leases
  {
    && t in b.leases
    && a.leases[t].reservedAt == b.leases[t].reservedAt
    && (!a.leases[t].active ==> b.leases[t] == a.leases[t])
    && (b.leases[t].active ==> GpusOf(b, t) == GpusOf(a, t))
  }

  /** Nothing that later operations may rely on was taken back. */
  ghost predicate Evolves(a: Tables, b: Tables) {
    && (forall t :: t in a.tasks ==> t in b.tasks && TaskEvolves(a.tasks[t], b.tasks[t]))
    && (forall t :: t in a.leases ==> LeaseEvolves(a, b, t))
    && (forall t :: t in b.leases && t !in a.leases && t in a.tasks ==> a.tasks[t].status == Queued)
  }

  // ---- Row facts ----------------------------------------------------------------------------

  lemma {:induction false} GpusConcat(a: seq<GpuRow>, b: seq<GpuRow>, t: TaskId)
    ensures GpusIn(a + b, t) == GpusIn(a, t) + GpusIn(b, t)
  {
    if a == [] {
      assert a + b == b;
    } else {
      var head := if a[0].task == t then [a[0].gpu] else [];
      GpusConcat(a[1..], b, t);
      assert (a + b)[0] == a[0] && (a + b)[1..] == a[1..] + b;
      assert GpusIn(a, t) == head + GpusIn(a[1..], t);
      assert GpusIn(a + b, t) == head + GpusIn(a[1..] + b, t);
    }
  }

  lemma {:induction false} GpusOfRows(a: Allocation, t: TaskId, k: nat)
    requires k <= |a.gpus|
    ensures GpusIn(RowsFor(a)[k..], t) == if t == a.id then a.gpus[k..] else []
    decreases |a.gpus| - k
  {
    if k < |a.gpus| {
      GpusOfRows(a, t, k + 1);
      assert RowsFor(a)[k..][1..] == RowsFor(a)[k + 1..];
      assert a.gpus[k..] == [a.gpus[k]] + a.gpus[k + 1..];
    }
  }

  lemma GpusAfterInsert(rows: seq<GpuRow>, a: Allocation, t: TaskId)
    ensures GpusIn(rows + RowsFor(a), t) == GpusIn(rows, t) + if t == a.id then a.gpus else []
  {
    GpusConcat(rows, RowsFor(a), t);
    GpusOfRows(a, t, 0);
    assert RowsFor(a)[0..] == RowsFor(a) && a.gpus[0..] == a.gpus;
  }

  lemma {:induction false} GpusWithout(rows: seq<GpuRow>, gone: set<TaskId>, t: TaskId)
    ensures GpusIn(Without(rows, gone), t) == if t in gone then [] else GpusIn(rows, t)
  {
    if rows != [] {
      GpusWithout(rows[1..], gone, t);
      var rest := Without(rows[1..], gone);
      if rows[0].task in gone {
        assert Without(rows, gone) == rest;
      } else {
        assert Without(rows, gone) == [rows[0]] + rest && ([rows[0]] + rest)[1..] == rest;
      }
    }
  }

  lemma {:induction false} GpusMembers(rows: seq<GpuRow>, t: TaskId)
    ensures forall g :: g in GpusIn(rows, t) <==> exists r :: r in rows && r.task == t && r.gpu == g
  {
    if rows != [] {
      GpusMembers(rows[1..], t);
      assert rows == [rows[0]] + rows[1..];
    }
  }

  lemma {:induction false} NoRowsNoGpus(rows: seq<GpuRow>, t: TaskId)
    requires forall r :: r in rows ==> r.task != t
    ensures GpusIn(rows, t) == []
  {
    if rows != [] {
      NoRowsNoGpus(rows[1..], t);
    }
  }

  lemma {:induction false} WithoutApart(rows: seq<GpuRow>, gone: set<TaskId>)
    requires RowsApart(rows)
    ensures RowsApart(Without(rows, gone))
  {
    if rows != [] {
      WithoutApart(rows[1..], gone);
      var rest := Without(rows[1..], gone);
      if rows[0].task in gone {
        assert Without(rows, gone) == rest;
      } else {
        WithoutMembers(rows[1..], gone);
        assert Without(rows, gone) == [rows[0]] + rest;
        forall r | r in rest ensures Apart(rows[0], r) {
          assert r in rows[1..];
        }
      }
    }
  }

  lemma InsertApart(rows: seq<GpuRow>, a: Allocation)
    requires RowsApart(rows) && Distinct(a.gpus)
    requires forall r :: r in rows ==> r.task != a.id
    requires !exists i :: 0 <= i < |a.gpus| && GpuTaken(rows, a.gpus[i])
    ensures RowsApart(rows + RowsFor(a))
  {
    var all := rows + RowsFor(a);
    forall i, j | 0 <= i < j < |all| ensures Apart(all[i], all[j]) {
      if i < |rows| <= j {
        assert all[j].gpu == a.gpus[j - |rows|];
        assert !GpuTaken(rows, a.gpus[j - |rows|]);
        assert rows[i] in rows;
      } else if |rows| <= i {
        assert a.gpus[i - |rows|] != a.gpus[j - |rows|];
      }
    }
  }

  // ---- Each operation keeps the invariant -----------------------------------------------------

  lemma InsertGpus(db: Tables, a: Allocation, now: int)
    requires Consistent(db) && a.id in QueuedTasks(db) && InsertLease(db, a, now).Ok?
    ensures forall t :: GpusOf(InsertLease(db, a, now).value, t) == if t == a.id then a.gpus else GpusOf(db, t)
  {
    assert forall r :: r in db.rows ==> Holding(db, r.task);
    NoRowsNoGpus(db.rows, a.id);
    forall t ensures GpusOf(InsertLease(db, a, now).value, t) == if t == a.id then a.gpus else GpusOf(db, t) {
      GpusAfterInsert(db.rows, a, t);
    }
  }

  lemma InsertRows(db: Tables, a: Allocation, now: int)
    requires Consistent(db) && a.id in QueuedTasks(db) && InsertLease(db, a, now).Ok?
    ensures var next := InsertLease(db, a, now).value;
            RowsApart(next.rows) && forall r :: r in next.rows ==> Holding(next, r.task)
  {
    var next := InsertLease(db, a, now).value;
    assert forall r :: r in db.rows ==> Holding(db, r.task) && r.task != a.id;
    InsertApart(db.rows, a);
    forall r | r in next.rows ensures Holding(next, r.task) {
      if r !in db.rows {
        assert r in RowsFor(a);
      }
    }
  }

  lemma InsertKeeps(db: Tables, a: Allocation, now: int)
    requires Consistent(db) && a.id in QueuedTasks(db) && FitsRequest(db.tasks[a.id], |a.gpus|)
    requires InsertLease(db, a, now).Ok?
    ensures Consistent(InsertLease(db, a, now).value)
    ensures Evolves(db, InsertLease(db, a, now).value)
  {
    var next := InsertLease(db, a, now).value;
    InsertGpus(db, a, now);
    InsertRows(db, a, now);
    forall t | t in next.tasks ensures Shaped(next, t) && Sized(next, t) {
      assert Shaped(db, t) && Sized(db, t);
    }
  }

  ghost predicate Placeable(db: Tables, a: Allocation) {
    a.id in QueuedTasks(db) && FitsRequest(db.tasks[a.id], |a.gpus|)
  }

  ghost predicate AllPlaceable(db: Tables, allocs: seq<Allocation>) {
    && (forall i, j :: 0 <= i < j < |allocs| ==> allocs[i].id != allocs[j].id)
    && (forall a :: a in allocs ==> Placeable(db, a))
  }

  lemma {:induction false} InsertAllKeeps(db: Tables, allocs: seq<Allocation>, now: int)
    requires Consistent(db) && AllPlaceable(db, allocs) && InsertAll(db, allocs, now).Ok?
    ensures Consistent(InsertAll(db, allocs, now).value)
    ensures Evolves(db, InsertAll(db, allocs, now).value)
    decreases |allocs|
  {
    if allocs != [] {
      assert Placeable(db, allocs[0]);
      InsertKeeps(db, allocs[0], now);
      var next := InsertLease(db, allocs[0], now).value;
      forall a | a in allocs[1..] ensures Placeable(next, a) {
        var i :| 0 <= i < |allocs| - 1 && allocs[1..][i] == a;
        assert allocs[i + 1].id != allocs[0].id && Placeable(db, allocs[i + 1]);
      }
      InsertAllKeeps(next, allocs[1..], now);
    }
  }

  /** The planner's decisions for the current queue can be placed. */
  lemma PlanPlaceable(db: Tables, inp: Input)
    requires inp.waiting == Waiting(db) && Plan(inp).Ok?
    ensures AllPlaceable(db, Plan(inp).value)
  {
    WaitingLists(db);
    PlanSound(inp);
    forall a | a in Plan(inp).value ensures Placeable(db, a) {
      var r :| Serves(inp, a, r);
      assert r in inp.waiting;
    }
  }

  lemma AllocateKeeps(db: Tables, free: seq<GpuId>, total: int, external: int, reserve: int, strict: bool, now: int)
    requires Consistent(db) && AllocateBatch(db, free, total, external, reserve, strict, now).Ok?
    ensures Consistent(AllocateBatch(db, free, total, external, reserve, strict, now).value)
    ensures Evolves(db, AllocateBatch(db, free, total, external, reserve, strict, now).value)
  {
    var inp := PlanInput(db, free, total, external, reserve, strict);
    PlanPlaceable(db, inp);
    InsertAllKeeps(db, Plan(inp).value, now);
  }

  /** Rows, sizes and leases of all other tasks stay, so only `t` itself needs a look. */
  lemma LocalChange(db: Tables, next: Tables, t: TaskId)
    requires Consistent(db) && next.rows == db.rows
    requires t in db.tasks && next.tasks.Keys == db.tasks.Keys && next.leases.Keys == db.leases.Keys
    requires forall u :: u in db.tasks && u != t ==> next.tasks[u] == db.tasks[u]
    requires forall u :: u in db.leases && u != t ==> next.leases[u] == db.leases[u]
    requires TaskEvolves(db.tasks[t], next.tasks[t]) && Shaped(next, t)
    requires t in db.leases ==> LeaseEvolves(db, next, t) && next.leases[t].active == db.leases[t].active
    ensures Consistent(next) && Evolves(db, next)
  {
    forall u | u in next.tasks ensures Shaped(next, u) && Sized(next, u) {
      assert Shaped(db, u) && Sized(db, u);
    }
    forall u | u in db.leases ensures LeaseEvolves(db, next, u) {
    }
  }

  /** Releasing leases: the tasks in `gone` end up terminal, nothing else moves. */
  lemma ReleaseKeeps(db: Tables, next: Tables, gone: set<TaskId>)
    requires Consistent(db) && next.rows == Without(db.rows, gone)
    requires next.tasks.Keys == db.tasks.Keys && next.leases.Keys == db.leases.Keys
    requires forall u :: u in db.tasks && u !in gone ==> next.tasks[u] == db.tasks[u]
    requires forall u :: u in db.tasks && u in gone ==>
               TaskEvolves(db.tasks[u], next.tasks[u]) && Terminal(next.tasks[u].status)
    requires forall u :: u in db.leases && !(u in gone && db.leases[u].active) ==> next.leases[u] == db.leases[u]
    requires forall u :: u in db.leases && u in gone && db.leases[u].active ==>
               !next.leases[u].active && next.leases[u].reservedAt == db.leases[u].reservedAt
    ensures Consistent(next) && Evolves(db, next)
  {
    WithoutApart(db.rows, gone);
    WithoutMembers(db.rows, gone);
    forall t ensures GpusOf(next, t) == if t in gone then [] else GpusOf(db, t) {
      GpusWithout(db.rows, gone, t);
    }
    forall u | u in next.tasks ensures Shaped(next, u) && Sized(next, u) {
      assert Shaped(db, u) && Sized(db, u);
    }
    forall u | u in db.leases ensures LeaseEvolves(db, next, u) {
    }
  }

  lemma NoRowsToDelete(db: Tables, t: TaskId)
    requires Consistent(db) && !Holding(db, t)
    ensures Without(db.rows, {t}) == db.rows
  {
    KeepAll(db.rows, {t});
  }

  lemma {:induction false} KeepAll(rows: seq<GpuRow>, gone: set<TaskId>)
    requires forall r :: r in rows ==> r.task !in gone
    ensures Without(rows, gone) == rows
  {
    if rows != [] {
      KeepAll(rows[1..], gone);
    }
  }

  lemma EndKeeps(db: Tables, t: TaskId, status: Status, exitCode: Option<int>, error: Option<string>, now: int)
    requires Consistent(db) && t in db.tasks && Terminal(status)
    ensures Consistent(ReleaseLease(db, t, status, exitCode, error, now))
    ensures Evolves(db, ReleaseLease(db, t, status, exitCode, error, now))
  {
    if !Holding(db, t) {
      NoRowsToDelete(db, t);
    }
    ReleaseKeeps(db, ReleaseLease(db, t, status, exitCode, error, now), {t});
  }

  lemma RecoverKeeps(db: Tables, now: int, timeout: int, procs: Procs)
    requires Consistent(db)
    ensures Consistent(RecoverStale(db, now, timeout, procs))
    ensures Evolves(db, RecoverStale(db, now, timeout, procs))
  {
    ReleaseKeeps(db, RecoverStale(db, now, timeout, procs), StaleTasks(db, now, timeout, procs));
  }

  lemma AddKeeps(db: Tables, op: Op)
    requires Consistent(db) && op.Add? && Apply(db, op).Ok?
    ensures Consistent(Step(db, op)) && Evolves(db, Step(db, op))
  {
    var next := Step(db, op);
    forall u | u in next.tasks ensures Shaped(next, u) && Sized(next, u) {
      if u != op.t {
        assert Shaped(db, u) && Sized(db, u);
      }
    }
    forall u | u in db.leases ensures LeaseEvolves(db, next, u) {
    }
  }

  lemma SameKeeps(db: Tables, next: Tables)
    requires Consistent(db) && next == db.(signature := next.signature)
    ensures Consistent(next) && Evolves(db, next)
  {
    forall u | u in next.tasks ensures Shaped(next, u) && Sized(next, u) {
      assert Shaped(db, u) && Sized(db, u);
    }
    forall u | u in db.leases ensures LeaseEvolves(db, next, u) {
    }
  }

  lemma ClaimKeeps(db: Tables, op: Op)
    requires Consistent(db) && op.Claim? && Apply(db, op).Ok?
    ensures Consistent(Step(db, op)) && Evolves(db, Step(db, op))
  {
    assert Shaped(db, op.t);
    if Step(db, op) == db {
      SameKeeps(db, db);
    } else {
      LocalChange(db, Step(db, op), op.t);
    }
  }

  lemma BindKeeps(db: Tables, op: Op)
    requires Consistent(db) && op.Bind? && Apply(db, op).Ok?
    ensures Consistent(Step(db, op)) && Evolves(db, Step(db, op))
  {
    assert Shaped(db, op.t);
    LocalChange(db, Step(db, op), op.t);
  }

  lemma CancelKeeps(db: Tables, op: Op)
    requires Consistent(db) && op.Cancel? && Apply(db, op).Ok?
    ensures Consistent(Step(db, op)) && Evolves(db, Step(db, op))
  {
    var k := db.tasks[op.t];
    assert Shaped(db, op.t);
    if Terminal(k.status) {
      SameKeeps(db, db);
    } else if k.status == Queued || k.status == Launching {
      EndKeeps(db, op.t, Cancelled, Some(130), Some("cancelled before start"), op.now);
    } else {
      LocalChange(db, Step(db, op), op.t);
    }
  }

  /** One operation, with whatever arguments, keeps the invariant and takes nothing back. */
  lemma StepKeeps(db: Tables, op: Op)
    requires Consistent(db)
    ensures Consistent(Step(db, op)) && Evolves(db, Step(db, op))
  {
    if Apply(db, op).Err? {
      SameKeeps(db, db);
    } else {
      match op
      case Add(_, _, _, _, _, _, _) => AddKeeps(db, op);
      case Validate(_) => SameKeeps(db, Step(db, op));
      case Allocate(free, total, external, reserve, strict, now) =>
        AllocateKeeps(db, free, total, external, reserve, strict, now);
      case Claim(_, _, _, _) => ClaimKeeps(db, op);
      case Bind(_, _, _, _) => BindKeeps(db, op);
      case Finish(t, _, _, code, error, now) =>
        EndKeeps(db, t, FinalStatus(db.tasks[t], code), Some(code), error, now);
      case Cancel(_, _) => CancelKeeps(db, op);
      case Recover(now, timeout, procs) => RecoverKeeps(db, now, timeout, procs);
    }
  }

  // ---- Whole runs ---------------------------------------------------------------------------

  /** Every run keeps the invariant, and what held along the way is never taken back. */
  lemma {:induction false} RunKeeps(db: Tables, ops: seq<Op>)
    requires Consistent(db)
    ensures Consistent(Run(db, ops)) && Evolves(db, Run(db, ops))
    decreases |ops|
  {
    if ops == [] {
      SameKeeps(db, db);
    } else {
      var next := Step(db, ops[0]);
      StepKeeps(db, ops[0]);
      RunKeeps(next, ops[1..]);
    }
  }

  /** In every state reachable from the empty database no GPU belongs to two active leases, every
      recorded GPU belongs to an active lease, and status matches lease shape. */
  lemma ReachableConsistent(ops: seq<Op>)
    ensures Consistent(Run(EMPTY, ops))
    ensures forall t, u :: Holding(Run(EMPTY, ops), t) && Holding(Run(EMPTY, ops), u) && t != u ==>
              forall g :: !(g in GpusOf(Run(EMPTY, ops), t) && g in GpusOf(Run(EMPTY, ops), u))
  {
    RunKeeps(EMPTY, ops);
    var db := Run(EMPTY, ops);
    forall t, u, g | t != u && g in GpusOf(db, t) && g in GpusOf(db, u) ensures false {
      OneOwner(db, t, u, g);
    }
  }

  lemma OneOwner(db: Tables, t: TaskId, u: TaskId, g: GpuId)
    requires Consistent(db) && g in GpusOf(db, t) && g in GpusOf(db, u)
    ensures t == u
  {
    GpusMembers(db.rows, t);
    GpusMembers(db.rows, u);
    var x :| x in db.rows && x.task == t && x.gpu == g;
    var y :| y in db.rows && y.task == u && y.gpu == g;
    var i :| 0 <= i < |db.rows| && db.rows[i] == x;
    var j :| 0 <= j < |db.rows| && db.rows[j] == y;
    assert i == j;
  }

  /** Once terminal, a task never again holds a lease or a GPU. */
  lemma TerminalHoldsNothing(db: Tables, ops: seq<Op>, t: TaskId)
    requires Consistent(db) && t in db.tasks && Terminal(db.tasks[t].status)
    ensures var end := Run(db, ops);
            && t in end.tasks && Terminal(end.tasks[t].status)
            && !Holding(end, t) && GpusOf(end, t) == []
  {
    RunKeeps(db, ops);
    var end := Run(db, ops);
    assert TaskEvolves(db.tasks[t], end.tasks[t]);
    assert Shaped(end, t);
    NoRowsNoGpus(end.rows, t);
  }

  /** A task is leased at most once: a released lease stays as it is for ever, and while a lease is
      active its GPUs are the ones it was granted. */
  lemma LeasedAtMostOnce(db: Tables, ops: seq<Op>, t: TaskId)
    requires Consistent(db) && t in db.leases
    ensures var end := Run(db, ops);
            && t in end.leases && end.leases[t].reservedAt == db.leases[t].reservedAt
            && (!db.leases[t].active ==> end.leases[t] == db.leases[t])
            && (Holding(end, t) ==> Holding(db, t) && GpusOf(end, t) == GpusOf(db, t))
  {
    RunKeeps(db, ops);
    assert LeaseEvolves(db, Run(db, ops), t);
  }

  // ---- How an active lease ends ---------------------------------------------------------------

  /** The operations that end an active lease of `t`. */
  predicate Ends(lease: Lease, op: Op, t: TaskId) {
    match op
    case Finish(u, pid, start, _, _, _) => u == t && pid.Some? && lease.pid == pid && lease.pidStart == start
    case Cancel(u, _) => u == t && lease.pid.None?
    case Recover(now, timeout, procs) =>
      if lease.pid.None? then now - lease.reservedAt >= timeout else !PidMatches(procs, lease.pid, lease.pidStart)
    case _ => false
  }

  lemma AllocateKeepsLease(db: Tables, op: Op, t: TaskId)
    requires Consistent(db) && Holding(db, t) && op.Allocate?
    ensures Holding(Step(db, op), t) && Step(db, op).leases[t] == db.leases[t]
  {
    if Apply(db, op).Ok? {
      var inp := PlanInput(db, op.free, op.total, op.external, op.reserve, op.strict);
      PlanPlaceable(db, inp);
      assert Shaped(db, t);
      InsertAllKeepsLease(db, Plan(inp).value, op.now, t);
    }
  }

  lemma {:induction false} InsertAllKeepsLease(db: Tables, allocs: seq<Allocation>, now: int, t: TaskId)
    requires t in db.leases && (forall a :: a in allocs ==> a.id in db.tasks) && InsertAll(db, allocs, now).Ok?
    ensures t in InsertAll(db, allocs, now).value.leases
    ensures InsertAll(db, allocs, now).value.leases[t] == db.leases[t]
    decreases |allocs|
  {
    if allocs != [] {
      InsertAllKeepsLease(InsertLease(db, allocs[0], now).value, allocs[1..], now, t);
    }
  }

  /** A claimed lease leaves the active state only by a finish carrying its exact (pid, start time)
      or by a recovery that finds this identity dead; an unclaimed one only by cancellation or timeout. */
  lemma LeaseEndsExactly(db: Tables, op: Op, t: TaskId)
    requires Consistent(db) && Holding(db, t)
    ensures !Holding(Step(db, op), t) <==> Ends(db.leases[t], op, t)
  {
    assert Shaped(db, t);
    if op.Allocate? {
      AllocateKeepsLease(db, op, t);
    }
  }

  /** Cancelling a claimed task leaves its lease and its GPUs alone until its process is gone. */
  lemma CancelKeepsClaimedGpus(db: Tables, t: TaskId, now: int)
    requires Consistent(db) && Holding(db, t) && db.leases[t].pid.Some?
    ensures var end := Step(db, Cancel(t, now));
            && end.tasks[t].status == Cancelling
            && end.leases == db.leases && end.rows == db.rows
  {
    assert Shaped(db, t);
  }

  /** Claiming a reserved task records the claimer's identity and both moments, and nothing else. */
  lemma ClaimRecordsClaimer(db: Tables, t: TaskId, self: Pid, procs: Procs, now: int)
    requires Consistent(db) && t in db.tasks && db.tasks[t].status == Launching
    ensures var next := Step(db, Claim(t, self, procs, now));
            var start := if self >= 1 && self in procs then Some(procs[self]) else None;
            && next.rows == db.rows && next.signature == db.signature
            && t in db.leases && db.leases[t].active
            && next.leases
               == db.leases[t := db.leases[t].(pid := Some(self), pidStart := start, claimedAt := Some(now))]
            && next.tasks == db.tasks[t := db.tasks[t].(status := Running, startedAt := Some(now))]
  {
    assert Shaped(db, t);
  }

  /** A running task can be claimed again by the very process that holds it, without any change, and by
      nobody else. */
  lemma ClaimedAgainExactly(db: Tables, t: TaskId, self: Pid, procs: Procs, now: int)
    requires Consistent(db) && t in db.tasks && db.tasks[t].status == Running
    ensures var lease := db.leases[t];
            ClaimTask(db, t, self, procs, now)
            == if lease.pid == Some(self) && self >= 1 && self in procs && lease.pidStart == Some(procs[self])
               then Ok((db, Some(lease))) else Err(TaskBusy)
  {
    assert Shaped(db, t);
  }

  predicate HandsOver(op: Op, t: TaskId, self: Pid) {
    op.Bind? && op.t == t && op.supervisor == self
  }

  lemma StepKeepsClaimer(db: Tables, op: Op, t: TaskId, self: Pid)
    requires Consistent(db) && Holding(db, t) && db.leases[t].pid == Some(self)
    requires !HandsOver(op, t, self) && Holding(Step(db, op), t)
    ensures Step(db, op).leases[t].pid == Some(self)
  {
    if op.Allocate? {
      AllocateKeepsLease(db, op, t);
    }
  }

  lemma {:induction false} RunKeepsClaimer(db: Tables, ops: seq<Op>, t: TaskId, self: Pid)
    requires Consistent(db) && Holding(db, t) && db.leases[t].pid == Some(self)
    requires forall op :: op in ops ==> !HandsOver(op, t, self)
    requires Holding(Run(db, ops), t)
    ensures Run(db, ops).leases[t].pid == Some(self)
    decreases |ops|
  {
    if ops != [] {
      var next := Step(db, ops[0]);
      assert ops[0] in ops;
      StepKeeps(db, ops[0]);
      RunKeeps(next, ops[1..]);
      assert LeaseEvolves(db, next, t) && LeaseEvolves(next, Run(next, ops[1..]), t);
      StepKeepsClaimer(db, ops[0], t, self);
      RunKeepsClaimer(next, ops[1..], t, self);
    }
  }

  /** After a claim, over any run in which the task keeps its lease and the claimer does not hand it over,
      no other process obtains it: while the task runs every other claim is an error, and once it is
      being cancelled there is nothing to claim. */
  lemma ClaimIsExclusive(db: Tables, t: TaskId, self: Pid, procs: Procs, now: int, ops: seq<Op>,
                         other: Pid, procs': Procs, later: int)
    requires Consistent(db) && t in db.tasks && db.tasks[t].status == Launching && other != self
    requires forall op :: op in ops ==> !HandsOver(op, t, self)
    requires Holding(Run(Step(db, Claim(t, self, procs, now)), ops), t)
    ensures var end := Run(Step(db, Claim(t, self, procs, now)), ops);
            && t in end.tasks && end.leases[t].pid == Some(self)
            && (end.tasks[t].status == Running ==> ClaimTask(end, t, other, procs', later) == Err(TaskBusy))
            && (end.tasks[t].status != Running ==> ClaimTask(end, t, other, procs', later) == Ok((end, None)))
  {
    var next := Step(db, Claim(t, self, procs, now));
    ClaimRecordsClaimer(db, t, self, procs, now);
    StepKeeps(db, Claim(t, self, procs, now));
    RunKeeps(next, ops);
    RunKeepsClaimer(next, ops, t, self);
    assert Shaped(Run(next, ops), t);
  }

  /** Handing over moves the right to finish: afterwards a finish is accepted exactly when it carries
      the child's identity, and the supervisor cannot hand over a second time. */
  lemma HandOverMovesFinish(db: Tables, t: TaskId, supervisor: Pid, child: Pid, childStart: Option<int>)
    requires Consistent(db) && Holding(db, t) && db.leases[t].pid == Some(supervisor) && child != supervisor
    ensures var next := Step(db, Bind(t, supervisor, child, childStart));
            && next.tasks == db.tasks && next.rows == db.rows
            && (forall pid: Option<Pid>, start: Option<int>, code, error, now ::
                  FinishTask(next, t, pid, start, code, error, now).Ok? <==> pid == Some(child) && start == childStart)
            && (forall p: Pid, s: Option<int> :: UpdateLeasePid(next, t, supervisor, p, s) == Err(TaskBusy))
  {
    assert Shaped(db, t);
  }

  /** A finish that arrives after its lease was recovered touches no lease and no GPU, whoever holds
      them by then; it only rewrites the final record of its own task. */
  lemma LateFinishIsHarmless(db: Tables, op: Op)
    requires Consistent(db) && op.Finish? && !Holding(db, op.t)
    ensures Step(db, op).rows == db.rows && Step(db, op).leases == db.leases
    ensures forall u :: u in db.tasks && u != op.t ==> u in Step(db, op).tasks && Step(db, op).tasks[u] == db.tasks[u]
    ensures op.t in db.tasks ==> Terminal(Step(db, op).tasks[op.t].status)
  {
  }

  /** Exactly one kind of operation rewrites a terminal status: a finish whose exit code tells otherwise. */
  lemma TerminalRewrittenExactly(db: Tables, op: Op, t: TaskId)
    requires Consistent(db) && t in db.tasks && Terminal(db.tasks[t].status)
    ensures t in Step(db, op).tasks
    ensures Step(db, op).tasks[t].status != db.tasks[t].status
            <==> op.Finish? && op.t == t && db.tasks[t].status != if op.exitCode == 0 then Completed else Failed
  {
    assert Shaped(db, t);
    if op.Allocate? {
      AllocateKeepsOthers(db, op, t);
    }
  }

  /** A running task whose process died is recovered as failed; when its supervisor then reports success,
      the failed task becomes completed. */
  lemma LateSuccessRewritesFailure(db: Tables, t: TaskId, procs: Procs, now: int, timeout: int, later: int)
    requires Consistent(db) && t in db.tasks && db.tasks[t].status == Running
    requires !PidMatches(procs, db.leases[t].pid, db.leases[t].pidStart)
    ensures var lease := db.leases[t];
            var recovered := Step(db, Recover(now, timeout, procs));
            var end := Step(recovered, Finish(t, lease.pid, lease.pidStart, 0, None, later));
            && recovered.tasks[t].status == Failed && end.tasks[t].status == Completed
  {
    assert Shaped(db, t);
  }

  /** One running task on one GPU. */
  const ONE_RUNS := Tables(map[1 := Task(Running, 1, None, 0, 0, Some(1), None, None, None)],
                           map[1 := Lease(true, Some(7), Some(3), 0, Some(1), None)], [GpuRow(1, 5, 0)], Some({5}))

  lemma OneRunsIsRewritten()
    ensures Consistent(ONE_RUNS)
    ensures var failed := Step(ONE_RUNS, Recover(2, 300, map[]));
            && failed.tasks[1].status == Failed
            && Step(failed, Finish(1, Some(7), Some(3), 0, None, 3)).tasks[1].status == Completed
  {
    assert GpusOf(ONE_RUNS, 1) == [5] by {
      assert GpusIn([], 1) == [];
    }
    LateSuccessRewritesFailure(ONE_RUNS, 1, map[], 2, 300, 3);
  }

  lemma AllocateKeepsOthers(db: Tables, op: Op, t: TaskId)
    requires op.Allocate? && t in db.tasks && db.tasks[t].status != Queued
    ensures t in Step(db, op).tasks && Step(db, op).tasks[t] == db.tasks[t]
  {
    if Apply(db, op).Ok? {
      var inp := PlanInput(db, op.free, op.total, op.external, op.reserve, op.strict);
      PlanPlaceable(db, inp);
      InsertAllKeepsOthers(db, Plan(inp).value, op.now, t);
    }
  }

  lemma {:induction false} InsertAllKeepsOthers(db: Tables, allocs: seq<Allocation>, now: int, t: TaskId)
    requires t in db.tasks && db.tasks[t].status != Queued
    requires (forall a :: a in allocs ==> a.id in db.tasks) && InsertAll(db, allocs, now).Ok?
    ensures t in InsertAll(db, allocs, now).value.tasks
    ensures InsertAll(db, allocs, now).value.tasks[t] == db.tasks[t]
    decreases |allocs|
  {
    if allocs != [] {
      InsertAllKeepsOthers(InsertLease(db, allocs[0], now).value, allocs[1..], now, t);
    }
  }

  // ---- The inventory signature ----------------------------------------------------------------

  /** Over any run in which a task keeps its lease, the stored inventory signature is frozen. */
  lemma {:induction false} HeldFreezesSignature(db: Tables, ops: seq<Op>, t: TaskId)
    requires Consistent(db) && Holding(db, t) && db.signature.Some?
    requires Holding(Run(db, ops), t)
    ensures Run(db, ops).signature == db.signature
    decreases |ops|
  {
    if ops != [] {
      var next := Step(db, ops[0]);
      StepKeeps(db, ops[0]);
      RunKeeps(next, ops[1..]);
      assert LeaseEvolves(db, next, t) && LeaseEvolves(next, Run(next, ops[1..]), t);
      StepFreezesSignature(db, ops[0], t);
      HeldFreezesSignature(next, ops[1..], t);
    }
  }

  lemma StepFreezesSignature(db: Tables, op: Op, t: TaskId)
    requires Consistent(db) && Holding(db, t) && db.signature.Some?
    ensures Step(db, op).signature == db.signature
  {
    assert t in ActiveTasks(db);
    if op.Allocate? && Apply(db, op).Ok? {
      var inp := PlanInput(db, op.free, op.total, op.external, op.reserve, op.strict);
      InsertAllKeepsSignature(db, Plan(inp).value, op.now);
    }
  }

  lemma {:induction false} InsertAllKeepsSignature(db: Tables, allocs: seq<Allocation>, now: int)
    requires (forall a :: a in allocs ==> a.id in db.tasks) && InsertAll(db, allocs, now).Ok?
    ensures InsertAll(db, allocs, now).value.signature == db.signature
    decreases |allocs|
  {
    if allocs != [] {
      InsertAllKeepsSignature(InsertLease(db, allocs[0], now).value, allocs[1..], now);
    }
  }
}

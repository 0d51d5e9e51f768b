/** The queue database as the store's object: tables updated in place, transactions that can be
    rolled back, and every operation proved to have the effect its specification gives. */
module StateStores {
  import opened Prelude
  import opened Sorting
  import opened Planner
  import opened PlannerTheorems
  import opened PlannerLoops
  import opened StoreSpec

  // ---- Queue listing ------------------------------------------------------------------------

  /** `q` holds each queued task's request exactly once. */
  ghost predicate ListsQueue(db: Tables, q: seq<Request>) {
    && Distinct(Ids(q))
    && (forall r :: r in q ==> r.id in QueuedTasks(db) && r == RequestOf(db, r.id))
    && (forall t :: t in QueuedTasks(db) ==> RequestOf(db, t) in q)
  }

  lemma WaitingLists(db: Tables)
    ensures ListsQueue(db, Waiting(db)) && |Waiting(db)| == |QueuedTasks(db)|
  {
    var ids := Listing(QueuedTasks(db));
    var q := Waiting(db);
    assert Ids(q) == ids;
    forall r | r in q ensures r.id in QueuedTasks(db) && r == RequestOf(db, r.id) {
      var i :| 0 <= i < |q| && q[i] == r;
      assert ids[i] in ids;
    }
    forall t | t in QueuedTasks(db) ensures RequestOf(db, t) in q {
      assert t in ids;
      var i :| 0 <= i < |ids| && ids[i] == t;
      assert q[i] == RequestOf(db, t);
    }
  }

  lemma {:induction false} CountInDistinct(q: seq<Request>, r: Request)
    requires Distinct(Ids(q))
    ensures multiset(q)[r] == if r in q then 1 else 0
  {
    OnceIn(q, r);
    assert r in q <==> r in multiset(q);
  }

  /** Two complete listings differ only in order, so the planner cannot tell them apart. */
  lemma ListingsAgree(db: Tables, a: seq<Request>, b: seq<Request>)
    requires ListsQueue(db, a) && ListsQueue(db, b)
    ensures multiset(a) == multiset(b)
  {
    forall r ensures multiset(a)[r] == multiset(b)[r] {
      CountInDistinct(a, r);
      CountInDistinct(b, r);
    }
  }

  lemma PlanAnyListing(db: Tables, q: seq<Request>, inp: Input, ref: Input)
    requires ListsQueue(db, q) && ref.waiting == Waiting(db) && inp == ref.(waiting := q)
    ensures Distinct(Ids(q)) && Plan(inp) == Plan(ref)
  {
    WaitingLists(db);
    ListingsAgree(db, q, Waiting(db));
    PlanIgnoresListing(inp, ref);
  }

  // ---- Row deletion -------------------------------------------------------------------------

  lemma {:induction false} WithoutTwice(rows: seq<GpuRow>, a: set<TaskId>, b: set<TaskId>)
    ensures Without(Without(rows, a), b) == Without(rows, a + b)
  {
    if rows != [] {
      WithoutTwice(rows[1..], a, b);
      var rest := Without(rows[1..], a);
      if rows[0].task in a {
        assert Without(rows, a) == rest;
      } else {
        assert Without(rows, a) == [rows[0]] + rest && ([rows[0]] + rest)[1..] == rest;
      }
    }
  }

  lemma {:induction false} WithoutNone(rows: seq<GpuRow>)
    ensures Without(rows, {}) == rows
  {
    if rows != [] {
      WithoutNone(rows[1..]);
    }
  }

  lemma {:induction false} WithoutMembers(rows: seq<GpuRow>, gone: set<TaskId>)
    ensures forall r :: r in Without(rows, gone) <==> r in rows && r.task !in gone
  {
    if rows != [] {
      WithoutMembers(rows[1..], gone);
      assert rows == [rows[0]] + rows[1..];
    }
  }

  /** Releasing one more stale lease, task by task, is one step of releasing them together. */
  lemma RecoverOneMore(db: Tables, gone: set<TaskId>, t: TaskId, now: int)
    requires Holding(db, t) && t !in gone && t in db.tasks
    ensures ReleaseLease(RecoverTasks(db, gone, now), t, Recovered(db.tasks[t], now).status, None,
                         Recovered(db.tasks[t], now).error, now)
            == RecoverTasks(db, gone + {t}, now)
  {
    var before := RecoverTasks(db, gone, now);
    WithoutTwice(db.rows, gone, {t});
    assert Holding(before, t);
    var after := ReleaseLease(before, t, Recovered(db.tasks[t], now).status, None,
                              Recovered(db.tasks[t], now).error, now);
    var all := RecoverTasks(db, gone + {t}, now);
    assert after.tasks == all.tasks;
    assert after.leases == all.leases;
  }

  lemma RecoverNone(db: Tables, now: int)
    ensures RecoverTasks(db, {}, now) == db
  {
    WithoutNone(db.rows);
    var all := RecoverTasks(db, {}, now);
    assert all.tasks == db.tasks && all.leases == db.leases;
  }

  // ---- The store ----------------------------------------------------------------------------

  class StateStore {
    var tasks: map<TaskId, Task>
    var leases: map<TaskId, Lease>
    var rows: seq<GpuRow>
    var signature: Option<set<GpuId>>
    /** What an open transaction falls back to. */
    var saved: Option<Tables>

    function Db(): Tables
      reads this
    {
      Tables(tasks, leases, rows, signature)
    }

    constructor ()
      ensures Db() == EMPTY && saved == None
    {
      tasks, leases, rows, signature, saved := map[], map[], [], None, None;
    }

    method Restore(db: Tables)
      modifies this
      ensures Db() == db && saved == None
    {
      tasks, leases, rows, signature := db.tasks, db.leases, db.rows, db.signature;
      saved := None;
    }

    /** Opening a transaction inside another is an error, and the error undoes the outer one. */
    method Begin() returns (ok: bool)
      modifies this
      ensures ok <==> old(saved).None?
      ensures ok ==> Db() == old(Db()) && saved == Some(old(Db()))
      ensures !ok ==> Db() == old(saved).value && saved == None
    {
      if saved.Some? {
        Restore(saved.value);
        return false;
      }
      saved := Some(Tables(tasks, leases, rows, signature));
      return true;
    }

    method Commit()
      requires saved.Some?
      modifies this`saved
      ensures saved == None
    {
      saved := None;
    }

    method Rollback()
      requires saved.Some?
      modifies this
      ensures Db() == old(saved).value && saved == None
    {
      Restore(saved.value);
    }

    method ValidateInventorySignature(uuids: seq<GpuId>) returns (r: Result<(), StoreError>)
      modifies this`signature
      ensures r.Ok? ==> ValidateSignature(old(Db()), uuids) == Ok(Db())
      ensures r.Err? ==> ValidateSignature(old(Db()), uuids) == Err(r.error) && Db() == old(Db())
    {
      var current := set g | g in uuids;
      if !Distinct(uuids) || uuids == [] {
        return Err(BadInventory);
      }
      if signature.Some? && signature.value != current && ActiveTasks(Db()) != {} {
        return Err(InventoryChanged);
      }
      signature := Some(current);
      return Ok(());
    }

    method AddTask(t: TaskId, minGpus: int, maxGpus: Option<int>, priority: int, now: int,
                   argvGiven: bool, cwdExists: bool) returns (r: Result<(), StoreError>)
      modifies this`tasks
      ensures r.Ok? ==>
                StoreSpec.AddTask(old(Db()), t, minGpus, maxGpus, priority, now, argvGiven, cwdExists) == Ok(Db())
      ensures r.Err? ==>
                && StoreSpec.AddTask(old(Db()), t, minGpus, maxGpus, priority, now, argvGiven, cwdExists)
                   == Err(r.error)
                && Db() == old(Db())
    {
      if !argvGiven || minGpus < 1 || (maxGpus.Some? && maxGpus.value < minGpus) || !cwdExists {
        return Err(BadRequest);
      }
      if t in tasks {
        return Err(DuplicateKey);
      }
      tasks := tasks[t := Task(Queued, minGpus, maxGpus, priority, now, None, None, None, None)];
      return Ok(());
    }

    /** The queued requests in the order the database returns them. */
    method QueuedRequests() returns (q: seq<Request>)
      ensures ListsQueue(Db(), q) && SortedBy(Precedes, q)
      ensures forall i, j :: 0 <= i < j < |q| ==>
                && q[i].id in tasks && q[j].id in tasks
                && var a, b := tasks[q[i].id], tasks[q[j].id];
                   || a.priority > b.priority
                   || (a.priority == b.priority && a.createdAt < b.createdAt)
                   || (a.priority == b.priority && a.createdAt == b.createdAt && q[i].id < q[j].id)
    {
      var todo := set t | t in tasks && tasks[t].status == Queued;
      var found: seq<Request> := [];
      while todo != {}
        invariant todo <= QueuedTasks(Db())
        invariant Distinct(Ids(found))
        invariant forall r :: r in found ==> r.id in QueuedTasks(Db()) - todo && r == RequestOf(Db(), r.id)
        invariant forall t :: t in QueuedTasks(Db()) - todo ==> RequestOf(Db(), t) in found
        decreases todo
      {
        SomeTask(todo);
        var t :| t in todo;
        var request := Request(t, tasks[t].minGpus, tasks[t].maxGpus, tasks[t].priority, tasks[t].createdAt);
        DistinctSnoc(found, request);
        found := found + [request];
        todo := todo - {t};
      }
      q := Sort(Precedes, found);
      QueueFacts(found);
      InLine(found);
    }

    /** Insert the lease row and its GPU rows; stops at the first violated uniqueness constraint,
        leaving what was inserted for the surrounding transaction to undo. */
    method Reserve(a: Allocation, now: int) returns (ok: bool)
      requires a.id in tasks
      modifies this`tasks, this`leases, this`rows
      ensures ok <==> InsertLease(old(Db()), a, now).Ok?
      ensures ok ==> InsertLease(old(Db()), a, now) == Ok(Db())
    {
      ghost var before := rows;
      if a.id in leases {
        return false;
      }
      leases := leases[a.id := Lease(true, None, None, now, None, None)];
      for i := 0 to |a.gpus|
        invariant tasks == old(tasks) && leases == old(leases)[a.id := Lease(true, None, None, now, None, None)]
        invariant rows == before + RowsFor(a)[..i]
        invariant Distinct(a.gpus[..i])
        invariant forall k :: 0 <= k < i ==> !GpuTaken(before, a.gpus[k])
      {
        RowsSoFar(before, a, i);
        if GpuTaken(rows, a.gpus[i]) {
          return false;
        }
        rows := rows + [GpuRow(a.id, a.gpus[i], i)];
      }
      assert a.gpus[..|a.gpus|] == a.gpus && RowsFor(a)[..|a.gpus|] == RowsFor(a);
      if tasks[a.id].status == Queued {
        tasks := tasks[a.id := tasks[a.id].(status := Launching)];
      } else {
        assert tasks[a.id := tasks[a.id]] == tasks;
      }
      return true;
    }

    method ReserveAll(allocations: seq<Allocation>, now: int) returns (ok: bool)
      requires forall a :: a in allocations ==> a.id in tasks
      modifies this`tasks, this`leases, this`rows
      ensures ok <==> InsertAll(old(Db()), allocations, now).Ok?
      ensures ok ==> InsertAll(old(Db()), allocations, now) == Ok(Db())
    {
      assert allocations[0..] == allocations;
      for i := 0 to |allocations|
        invariant tasks.Keys == old(tasks).Keys && signature == old(signature)
        invariant InsertAll(Db(), allocations[i..], now) == InsertAll(old(Db()), allocations, now)
      {
        assert allocations[i..][0] == allocations[i] && allocations[i..][1..] == allocations[i + 1..];
        ghost var here := Db();
        var done := Reserve(allocations[i], now);
        if !done {
          return false;
        }
      }
      return true;
    }

    /** Plan against the current queue and record the launch decisions. */
    method AllocateInside(free: seq<GpuId>, total: int, external: int, reserve: int, strict: bool, now: int)
      returns (r: Result<(), StoreError>)
      modifies this`tasks, this`leases, this`rows
      ensures r.Ok? ==> StoreSpec.AllocateBatch(old(Db()), free, total, external, reserve, strict, now) == Ok(Db())
      ensures r.Err? ==> StoreSpec.AllocateBatch(old(Db()), free, total, external, reserve, strict, now) == Err(r.error)
    {
      var queue := QueuedRequests();
      var inp := Input(free, queue, total, |ActiveTasks(Db())|, external, reserve, strict);
      PlanAnyListing(Db(), queue, inp, PlanInput(Db(), free, total, external, reserve, strict));
      var plan := PlanAllocations(inp);
      if plan.Err? {
        return Err(PlanRefused(plan.error));
      }
      PlanNamesQueued(Db(), inp);
      var ok := ReserveAll(plan.value, now);
      InsertAllError(old(Db()), plan.value, now);
      return if ok then Ok(()) else Err(DuplicateKey);
    }

    /** Reserve a batch atomically; inside a transaction of the caller's, undoing is the caller's part. */
    method AllocateBatch(free: seq<GpuId>, total: int, external: int, reserve: int, strict: bool, now: int)
      returns (r: Result<(), StoreError>)
      modifies this
      ensures saved == old(saved)
      ensures r.Ok? ==> StoreSpec.AllocateBatch(old(Db()), free, total, external, reserve, strict, now) == Ok(Db())
      ensures r.Err? ==> StoreSpec.AllocateBatch(old(Db()), free, total, external, reserve, strict, now) == Err(r.error)
      ensures r.Err? && saved == None ==> Db() == old(Db())
    {
      if saved.None? {
        var _ := Begin();
        r := AllocateInside(free, total, external, reserve, strict, now);
        if r.Ok? {
          Commit();
        } else {
          Rollback();
        }
      } else {
        r := AllocateInside(free, total, external, reserve, strict, now);
      }
    }

    method ClaimTask(t: TaskId, pid: Pid, procs: Procs, now: int) returns (r: Result<Option<Lease>, StoreError>)
      modifies this`tasks, this`leases
      ensures r.Ok? ==> StoreSpec.ClaimTask(old(Db()), t, pid, procs, now) == Ok((Db(), r.value))
      ensures r.Err? ==> StoreSpec.ClaimTask(old(Db()), t, pid, procs, now) == Err(r.error) && Db() == old(Db())
    {
      if t !in tasks {
        return Err(TaskNotFound);
      }
      var status := tasks[t].status;
      if status == Queued || Terminal(status) || status == Cancelling {
        return Ok(None);
      }
      if t !in leases || !leases[t].active {
        return Err(NoActiveLease);
      }
      var lease := leases[t];
      if lease.pid.Some? {
        if lease.pid == Some(pid) && PidMatches(procs, Some(pid), lease.pidStart) {
          return Ok(Some(lease));
        }
        return Err(TaskBusy);
      }
      leases := leases[t := lease.(pid := Some(pid), pidStart := StartTime(procs, pid), claimedAt := Some(now))];
      if status == Launching {
        tasks := tasks[t := tasks[t].(status := Running, startedAt := Some(now))];
      } else {
        assert tasks == tasks[t := tasks[t]];
      }
      return Ok(Some(leases[t]));
    }

    method UpdateLeasePid(t: TaskId, supervisor: Pid, pid: Pid, start: Option<int>)
      returns (r: Result<(), StoreError>)
      modifies this`leases
      ensures r.Ok? ==> StoreSpec.UpdateLeasePid(old(Db()), t, supervisor, pid, start) == Ok(Db())
      ensures r.Err? ==> StoreSpec.UpdateLeasePid(old(Db()), t, supervisor, pid, start) == Err(r.error)
                         && Db() == old(Db())
    {
      if t !in leases || !leases[t].active {
        return Err(NoActiveLease);
      }
      if leases[t].pid != Some(supervisor) {
        return Err(TaskBusy);
      }
      leases := leases[t := leases[t].(pid := Some(pid), pidStart := start)];
      return Ok(());
    }

    method ReleaseLeaseTx(t: TaskId, status: Status, exitCode: Option<int>, error: Option<string>, now: int)
      modifies this`tasks, this`leases, this`rows
      ensures Db() == ReleaseLease(old(Db()), t, status, exitCode, error, now)
    {
      if t in leases && leases[t].active {
        rows := DeleteRows(rows, t);
        leases := leases[t := leases[t].(active := false, releasedAt := Some(now))];
      }
      if t in tasks {
        tasks := tasks[t := tasks[t].(status := status, finishedAt := Some(now), exitCode := exitCode, error := error)];
      }
    }

    method FinishTask(t: TaskId, pid: Option<Pid>, start: Option<int>, exitCode: int, error: Option<string>, now: int)
      returns (r: Result<(), StoreError>)
      modifies this`tasks, this`leases, this`rows
      ensures r.Ok? ==> StoreSpec.FinishTask(old(Db()), t, pid, start, exitCode, error, now) == Ok(Db())
      ensures r.Err? ==> StoreSpec.FinishTask(old(Db()), t, pid, start, exitCode, error, now) == Err(r.error)
                         && Db() == old(Db())
    {
      if t !in tasks {
        return Err(TaskNotFound);
      }
      if t in leases && leases[t].active {
        if pid.None? || leases[t].pid != pid || leases[t].pidStart != start {
          return Err(TaskBusy);
        }
      }
      var status := if tasks[t].status == Cancelling then Cancelled else if exitCode == 0 then Completed else Failed;
      ReleaseLeaseTx(t, status, Some(exitCode), error, now);
      return Ok(());
    }

    method RequestCancel(t: TaskId, now: int) returns (r: Result<Option<Lease>, StoreError>)
      modifies this`tasks, this`leases, this`rows
      ensures r.Ok? ==> StoreSpec.RequestCancel(old(Db()), t, now) == Ok((Db(), r.value))
      ensures r.Err? ==> StoreSpec.RequestCancel(old(Db()), t, now) == Err(r.error) && Db() == old(Db())
    {
      if t !in tasks {
        return Err(TaskNotFound);
      }
      var status := tasks[t].status;
      if Terminal(status) {
        return Ok(if t in leases then Some(leases[t]) else None);
      }
      var held := t in leases && leases[t].active;
      if (status == Queued || status == Launching) && (!held || leases[t].pid.None?) {
        ReleaseLeaseTx(t, Cancelled, Some(130), Some("cancelled before start"), now);
        return Ok(None);
      }
      if !held {
        return Err(NoActiveLease);
      }
      if status == Running {
        tasks := tasks[t := tasks[t].(status := Cancelling, error := Some("cancel requested"))];
      } else {
        assert tasks == tasks[t := tasks[t]];
      }
      return Ok(Some(leases[t]));
    }

    /** Release the leases of dead processes one after the other, over a list taken at the start. */
    method RecoverStale(now: int, timeout: int, procs: Procs) returns (recovered: set<TaskId>)
      requires leases.Keys <= tasks.Keys
      modifies this`tasks, this`leases, this`rows
      ensures recovered == StaleTasks(old(Db()), now, timeout, procs)
      ensures Db() == StoreSpec.RecoverStale(old(Db()), now, timeout, procs)
    {
      var listed := set t | t in leases && leases[t].active;
      var todo := listed;
      recovered := {};
      ghost var before := Db();
      RecoverNone(before, now);
      while todo != {}
        invariant todo <= listed
        invariant recovered == StaleTasks(before, now, timeout, procs) - todo
        invariant Db() == RecoverTasks(before, recovered, now)
        decreases todo
      {
        SomeTask(todo);
        var t :| t in todo;
        OneFewer(StaleTasks(before, now, timeout, procs), todo, t);
        todo := todo - {t};
        var lease := leases[t];
        assert lease == before.leases[t];
        var stale := if lease.pid.None? then now - lease.reservedAt >= timeout
                     else !PidMatches(procs, lease.pid, lease.pidStart);
        if stale {
          var status := if tasks[t].status == Cancelling then Cancelled else Failed;
          RecoverOneMore(before, recovered, t, now);
          ReleaseLeaseTx(t, status, None, Some("stale lease recovered (PID identity no longer exists)"), now);
          recovered := recovered + {t};
        }
      }
    }
  }

  lemma OneFewer(s: set<TaskId>, todo: set<TaskId>, t: TaskId)
    requires t in todo
    ensures s - (todo - {t}) == if t in s then s - todo + {t} else s - todo
  {
  }

  /** DELETE of one task's GPU rows. */
  method DeleteRows(rows: seq<GpuRow>, t: TaskId) returns (kept: seq<GpuRow>)
    ensures kept == Without(rows, {t})
  {
    kept := [];
    assert rows[0..] == rows;
    for i := 0 to |rows|
      invariant kept + Without(rows[i..], {t}) == Without(rows, {t})
    {
      assert rows[i..][1..] == rows[i + 1..];
      if rows[i].task != t {
        kept := kept + [rows[i]];
      }
    }
  }

  /** The queue runs from higher to lower priority, then from older to newer, then by ascending id. */
  lemma InLine(waiting: seq<Request>)
    requires Distinct(Ids(waiting))
    ensures var q := Queue(waiting);
            forall i, j :: 0 <= i < j < |q| ==>
              || q[i].priority > q[j].priority
              || (q[i].priority == q[j].priority && q[i].createdAt < q[j].createdAt)
              || (q[i].priority == q[j].priority && q[i].createdAt == q[j].createdAt && q[i].id < q[j].id)
  {
    QueueFacts(waiting);
    var q := Queue(waiting);
    forall i, j | 0 <= i < j < |q| ensures Precedes(q[i], q[j]) && q[i].id != q[j].id {
      assert Ids(q)[i] != Ids(q)[j];
    }
  }

  lemma DistinctSnoc(q: seq<Request>, r: Request)
    requires Distinct(Ids(q)) && forall x :: x in q ==> x.id != r.id
    ensures Distinct(Ids(q + [r]))
  {
    forall i | 0 <= i < |q| ensures Ids(q + [r])[i] == q[i].id && q[i].id != r.id && Ids(q)[i] == q[i].id {
      assert q[i] in q;
    }
  }

  lemma RowsSoFar(before: seq<GpuRow>, a: Allocation, i: nat)
    requires i < |a.gpus| && Distinct(a.gpus[..i])
    ensures GpuTaken(before + RowsFor(a)[..i], a.gpus[i])
            <==> GpuTaken(before, a.gpus[i]) || exists k :: 0 <= k < i && a.gpus[k] == a.gpus[i]
    ensures !(exists k :: 0 <= k < i && a.gpus[k] == a.gpus[i]) ==> Distinct(a.gpus[..i + 1])
    ensures RowsFor(a)[..i + 1] == RowsFor(a)[..i] + [GpuRow(a.id, a.gpus[i], i)]
  {
    var rows := before + RowsFor(a)[..i];
    if GpuTaken(before, a.gpus[i]) {
      var k :| 0 <= k < |before| && before[k].gpu == a.gpus[i];
      assert rows[k].gpu == a.gpus[i];
    }
    if k :| 0 <= k < i && a.gpus[k] == a.gpus[i] {
      assert rows[|before| + k].gpu == a.gpus[i];
    }
  }

  lemma {:induction false} InsertAllError(db: Tables, allocs: seq<Allocation>, now: int)
    requires forall a :: a in allocs ==> a.id in db.tasks
    ensures InsertAll(db, allocs, now).Err? ==> InsertAll(db, allocs, now).error == DuplicateKey
    decreases |allocs|
  {
    if allocs != [] && InsertLease(db, allocs[0], now).Ok? {
      InsertAllError(InsertLease(db, allocs[0], now).value, allocs[1..], now);
    }
  }

  lemma PlanNamesQueued(db: Tables, inp: Input)
    requires ListsQueue(db, inp.waiting) && Plan(inp).Ok?
    ensures forall a :: a in Plan(inp).value ==> a.id in QueuedTasks(db)
  {
    PlanSound(inp);
    forall a | a in Plan(inp).value ensures a.id in QueuedTasks(db) {
      var r :| Serves(inp, a, r);
      assert r in inp.waiting;
    }
  }
}

/** Whom one schedule step launches, and with how many GPUs, in terms of the database, the inventory and
    the session's settings. */
module StepLaunches {
  import opened Prelude
  import opened Planner
  import opened PlannerTheorems
  import opened QueueOrder
  import opened StoreSpec
  import opened StateStores
  import opened StoreInvariant
  import opened Coordination
  import opened Protocol
  import opened Scheduling

  /** A placed task holds the planned slice; a queued task that is not placed holds nothing. */
  lemma PlacedHolds(seen: Tables, next: Tables, allocs: seq<Allocation>, now: int, t: TaskId)
    requires Consistent(seen) && t in QueuedTasks(seen) && forall a :: a in allocs ==> a.id in seen.tasks
    requires Placed(seen, next, allocs, now)
    ensures Holding(next, t) <==> Launched(allocs, t)
    ensures t in next.tasks && next.tasks[t] == if Launched(allocs, t) then seen.tasks[t].(status := Launching)
                                                else seen.tasks[t]
    ensures forall a :: a in allocs && a.id == t ==> GpusOf(next, t) == a.gpus
  {
    assert Shaped(seen, t);
    if Launched(allocs, t) {
      var a :| a in allocs && a.id == t;
      assert PlacedOne(seen, next, a, now);
    } else {
      assert !Named(allocs, t);
      assert Untouched(seen, next, t);
    }
    forall a | a in allocs && a.id == t ensures GpusOf(next, t) == a.gpus {
      assert PlacedOne(seen, next, a, now);
    }
  }

  lemma LoneInput(db: Tables, env: Env, cfg: Settings, t: TaskId)
    requires Consistent(db) && Inside(db) && ViewLocked(db, env, cfg).Ok? && QueuedTasks(db) == {t}
    requires db.tasks[t].maxGpus.Some? || db.tasks[t].minGpus <= |env.snapshot.value.gpus|
    ensures var inp := SeenInput(db, env, cfg);
            inp.waiting == [RequestOf(db, t)] && Plan(inp).Ok?
  {
    var seen := ViewLocked(db, env, cfg).value.0;
    assert t in QueuedTasks(db) && Sized(db, t);
    ViewKeepsQueue(db, env, cfg);
    WaitingLists(seen);
    SeenInputPlausible(db, env, cfg);
    var inp := SeenInput(db, env, cfg);
    assert inp.waiting[0] in inp.waiting;
    forall u | u in QueuedTasks(db) ensures WellSized(RequestOf(db, u), inp.total) {
      assert u == t;
    }
    PlanAcceptedExactly(inp);
  }

  /** A task that waits alone gets as many GPUs as are free, up to its own maximum, and, if nothing is
      leased and nobody else uses a GPU, up to what the reserve leaves; with less than its minimum it goes
      on waiting. */
  lemma LoneTaskGets(db: Tables, env: Env, cfg: Settings, t: TaskId)
    requires Consistent(db) && Inside(db) && ViewLocked(db, env, cfg).Ok? && QueuedTasks(db) == {t}
    requires db.tasks[t].maxGpus.Some? || db.tasks[t].minGpus <= |env.snapshot.value.gpus|
    ensures var (seen, view) := ViewLocked(db, env, cfg).value;
            var k, total := db.tasks[t], |env.snapshot.value.gpus|;
            var most := Min(|view.free|, if k.maxGpus.None? then total else k.maxGpus.value);
            var left := if cfg.reserve < total then total - cfg.reserve else 1;
            var idle := ActiveTasks(seen) == {} && env.snapshot.value.busy == {};
            var grant := if idle then Min(most, left) else most;
            var next := ScheduleLocked(db, env, cfg).0;
            && t in next.tasks
            && if k.minGpus <= grant then
                 Holding(next, t) && GpusOf(next, t) == view.free[..grant] && next.tasks[t] == k.(status := Launching)
               else !Holding(next, t) && next.tasks[t] == k
  {
    var (seen, view) := ViewLocked(db, env, cfg).value;
    var inp := SeenInput(db, env, cfg);
    LoneInput(db, env, cfg, t);
    LoneWaiterGets(inp);
    IdleSeen(db, env, cfg);
    ViewKeeps(db, env, cfg);
    ViewKeepsQueue(db, env, cfg);
    ScheduleRefinesPlan(db, env, cfg);
    assert t in QueuedTasks(seen);
    PlacedHolds(seen, ScheduleLocked(db, env, cfg).0, Plan(inp).value, env.now, t);
    if Plan(inp).value != [] {
      assert Plan(inp).value[0] in Plan(inp).value;
    }
  }

  /** The plan counts active leases and outside GPUs, and finds none exactly on an idle host. */
  lemma IdleSeen(db: Tables, env: Env, cfg: Settings)
    requires ViewLocked(db, env, cfg).Ok?
    ensures var inp := SeenInput(db, env, cfg);
            inp.activeJobs == 0 && inp.externalBusy == 0
            <==> ActiveTasks(ViewLocked(db, env, cfg).value.0) == {} && env.snapshot.value.busy == {}
  {
    var seen := ViewLocked(db, env, cfg).value.0;
    if ActiveTasks(seen) == {} {
      assert forall u :: Holding(seen, u) ==> u in ActiveTasks(seen);
      assert ActiveGpus(seen) == {};
    }
  }

  ghost predicate Crowded(db: Tables, env: Env, cfg: Settings)
    requires ViewLocked(db, env, cfg).Ok?
  {
    || ActiveTasks(ViewLocked(db, env, cfg).value.0) != {} || env.snapshot.value.busy != {}
    || |QueuedTasks(db)| != 1
  }

  /** The requests that a task has to let pass: those ahead of it that are leased, or, in strict order, all
      ahead of it. */
  ghost function Passing(line: seq<Request>, me: Request, next: Tables, strict: bool): set<Request> {
    set r | r in line && Ahead(r, me) && (strict || Holding(next, r.id))
  }

  lemma PlannedLeases(db: Tables, env: Env, cfg: Settings)
    requires Consistent(db) && Inside(db) && ScheduleLocked(db, env, cfg).1.None? && ViewLocked(db, env, cfg).Ok?
    ensures var inp := SeenInput(db, env, cfg);
            && Plan(inp).Ok? && Distinct(Ids(inp.waiting))
            && (forall u :: u in QueuedTasks(db) ==> RequestOf(db, u) in inp.waiting)
            && (forall r :: r in inp.waiting ==> r.id in QueuedTasks(db) && r == RequestOf(db, r.id))
            && |inp.waiting| == |QueuedTasks(db)|
    ensures var inp := SeenInput(db, env, cfg);
            forall u :: u in QueuedTasks(db) ==>
              (Holding(ScheduleLocked(db, env, cfg).0, u) <==> Launched(Plan(inp).value, u))
  {
    var seen, next := ViewLocked(db, env, cfg).value.0, ScheduleLocked(db, env, cfg).0;
    ViewKeeps(db, env, cfg);
    ViewKeepsQueue(db, env, cfg);
    ScheduleRefinesPlan(db, env, cfg);
    WaitingLists(seen);
    assert forall u :: u in QueuedTasks(db) ==> RequestOf(seen, u) == RequestOf(db, u);
    forall u | u in QueuedTasks(seen)
      ensures Holding(next, u) <==> Launched(Plan(SeenInput(db, env, cfg)).value, u)
    {
      PlacedHolds(seen, next, Plan(SeenInput(db, env, cfg)).value, env.now, u);
    }
  }

  lemma SamePassing(line: seq<Request>, me: Request, next: Tables, strict: bool, allocs: seq<Allocation>)
    requires forall r :: r in line ==> (Holding(next, r.id) <==> Launched(allocs, r.id))
    ensures Passing(line, me, next, strict) == if strict then AllAhead(line, me) else LaunchedAhead(line, me, allocs)
  {
  }

  /** Otherwise a waiting task is leased exactly when its minimum fits what is free after the minimums of
      those it has to let pass. */
  lemma TaskLeasedExactly(db: Tables, env: Env, cfg: Settings, t: TaskId)
    requires Consistent(db) && Inside(db) && ScheduleLocked(db, env, cfg).1.None?
    requires ViewLocked(db, env, cfg).Ok? && Crowded(db, env, cfg) && t in QueuedTasks(db)
    ensures var (seen, view) := ViewLocked(db, env, cfg).value;
            var next := ScheduleLocked(db, env, cfg).0;
            var line, me := Waiting(seen), RequestOf(db, t);
            Holding(next, t) <==> Need(line, Passing(line, me, next, cfg.strict)) + me.minGpus <= |view.free|
  {
    var inp := SeenInput(db, env, cfg);
    IdleSeen(db, env, cfg);
    PlannedLeases(db, env, cfg);
    SamePassing(inp.waiting, RequestOf(db, t), ScheduleLocked(db, env, cfg).0, cfg.strict, Plan(inp).value);
    LaunchedExactly(inp, RequestOf(db, t));
  }

  /** Whoever leads the waiting tasks by priority, then age, then id, is leased if its minimum is free. */
  lemma FirstTaskIsLeased(db: Tables, env: Env, cfg: Settings, t: TaskId)
    requires Consistent(db) && Inside(db) && ScheduleLocked(db, env, cfg).1.None?
    requires ViewLocked(db, env, cfg).Ok? && Crowded(db, env, cfg) && t in QueuedTasks(db)
    requires forall u :: u in QueuedTasks(db) && u != t ==>
               || db.tasks[u].priority < db.tasks[t].priority
               || (db.tasks[u].priority == db.tasks[t].priority && db.tasks[t].createdAt < db.tasks[u].createdAt)
               || (db.tasks[u].priority == db.tasks[t].priority && db.tasks[t].createdAt == db.tasks[u].createdAt
                   && t < u)
    requires db.tasks[t].minGpus <= |ViewLocked(db, env, cfg).value.1.free|
    ensures Holding(ScheduleLocked(db, env, cfg).0, t)
  {
    var inp := SeenInput(db, env, cfg);
    IdleSeen(db, env, cfg);
    PlannedLeases(db, env, cfg);
    FirstInLineStarts(inp, RequestOf(db, t));
    assert Launched(Plan(inp).value, t);
  }
}

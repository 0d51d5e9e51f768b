/** One schedule step against the planner: it is all or nothing, places exactly the planned slices,
    and fails only for the inventory's or a request's own fault. */
module Scheduling {
  import opened Prelude
  import opened Planner
  import opened PlannerTheorems
  import opened StoreSpec
  import opened StateStores
  import opened StoreInvariant
  import opened Coordination
  import opened Protocol

  // ---- The view -----------------------------------------------------------------------------

  ghost predicate PlausibleSnapshot(s: Snapshot) {
    s.busy <= Members(s.gpus)
  }

  lemma {:induction false} DistinctCount(s: seq<int>)
    requires Distinct(s)
    ensures |Members(s)| == |s|
  {
    if s != [] {
      DistinctCount(s[1..]);
      assert s == [s[0]] + s[1..];
      assert Members(s) == Members(s[1..]) + {s[0]};
    }
  }

  ghost predicate Partition(gpus: seq<GpuId>, active: set<GpuId>, external: set<GpuId>, free: seq<GpuId>) {
    && Members(gpus) == active + external + Members(free)
    && active !! external && Members(free) !! active && Members(free) !! external
    && Distinct(free) && |gpus| == |active| + |external| + |free|
  }

  lemma UntakenPartitions(gpus: seq<GpuId>, active: set<GpuId>, external: set<GpuId>)
    requires Distinct(gpus) && active <= Members(gpus) && external <= Members(gpus) && active !! external
    ensures Partition(gpus, active, external, Untaken(gpus, active + external))
  {
    var free := Untaken(gpus, active + external);
    UntakenMembers(gpus, active + external);
    DistinctCount(gpus);
    DistinctCount(free);
    assert Members(free) == Members(gpus) - (active + external);
    assert |active + external| == |active| + |external|;
    assert Members(gpus) == (active + external) + Members(free);
  }

  /** Leased, external and free GPUs partition the snapshot. */
  lemma ViewPartitions(db: Tables, env: Env, cfg: Settings)
    requires ViewLocked(db, env, cfg).Ok? && PlausibleSnapshot(env.snapshot.value)
    ensures var (seen, view) := ViewLocked(db, env, cfg).value;
            Partition(env.snapshot.value.gpus, ActiveGpus(seen), view.external, view.free)
  {
    var (seen, view) := ViewLocked(db, env, cfg).value;
    UntakenPartitions(env.snapshot.value.gpus, ActiveGpus(seen), view.external);
  }

  lemma ViewKeeps(db: Tables, env: Env, cfg: Settings)
    requires Consistent(db) && Inside(db) && ViewLocked(db, env, cfg).Ok?
    ensures var seen := ViewLocked(db, env, cfg).value.0;
            Consistent(seen) && Inside(seen) && Evolves(db, seen)
  {
    var ops := ViewIsRun(db, env, cfg);
    RunKeeps(db, ops);
    GuardedRunInside(db, ops);
  }

  /** Recovery leaves waiting tasks as they are. */
  lemma ViewKeepsQueue(db: Tables, env: Env, cfg: Settings)
    requires Consistent(db) && ViewLocked(db, env, cfg).Ok?
    ensures var seen := ViewLocked(db, env, cfg).value.0;
            && QueuedTasks(seen) == QueuedTasks(db)
            && forall t :: t in QueuedTasks(db) ==> seen.tasks[t] == db.tasks[t]
  {
    var seen := ViewLocked(db, env, cfg).value.0;
    forall t ensures t in QueuedTasks(seen) <==> t in QueuedTasks(db) {
      if t in db.tasks {
        assert Shaped(db, t);
      }
    }
    forall t | t in QueuedTasks(db) ensures seen.tasks[t] == db.tasks[t] {
      assert Shaped(db, t);
    }
  }

  // ---- Placing a plan -----------------------------------------------------------------------

  ghost predicate Named(allocs: seq<Allocation>, t: TaskId) {
    exists a :: a in allocs && a.id == t
  }

  ghost predicate PlacedOne(db: Tables, next: Tables, a: Allocation, now: int)
    requires a.id in db.tasks
  {
    && a.id in next.leases && next.leases[a.id] == Lease(true, None, None, now, None, None)
    && GpusOf(next, a.id) == a.gpus
    && a.id in next.tasks && next.tasks[a.id] == db.tasks[a.id].(status := Launching)
  }

  ghost predicate Untouched(db: Tables, next: Tables, t: TaskId) {
    && (t in next.tasks <==> t in db.tasks) && (t in db.tasks ==> next.tasks[t] == db.tasks[t])
    && (t in next.leases <==> t in db.leases) && (t in db.leases ==> next.leases[t] == db.leases[t])
    && GpusOf(next, t) == GpusOf(db, t)
  }

  /** `next` is `db` with exactly the leases of `allocs` added. */
  ghost predicate Placed(db: Tables, next: Tables, allocs: seq<Allocation>, now: int)
    requires forall a :: a in allocs ==> a.id in db.tasks
  {
    && next.signature == db.signature
    && (forall a :: a in allocs ==> PlacedOne(db, next, a, now))
    && (forall t :: !Named(allocs, t) ==> Untouched(db, next, t))
  }

  ghost predicate Unrecorded(db: Tables, gpus: seq<GpuId>) {
    forall r :: r in db.rows ==> r.gpu !in gpus
  }

  lemma InsertPlaces(db: Tables, a: Allocation, now: int)
    requires Consistent(db) && Placeable(db, a) && Distinct(a.gpus) && Unrecorded(db, a.gpus)
    ensures InsertLease(db, a, now).Ok?
    ensures PlacedOne(db, InsertLease(db, a, now).value, a, now)
    ensures forall t :: t != a.id ==> Untouched(db, InsertLease(db, a, now).value, t)
  {
    NoRowsNoGpus(db.rows, a.id);
    GpusAfterInsert(db.rows, a, a.id);
    forall t | t != a.id ensures Untouched(db, InsertLease(db, a, now).value, t) {
      GpusAfterInsert(db.rows, a, t);
    }
  }

  lemma HeadPlaced(db: Tables, mid: Tables, next: Tables, allocs: seq<Allocation>, now: int)
    requires allocs != [] && forall a :: a in allocs ==> a.id in db.tasks && a.id in mid.tasks
    requires forall i, j :: 0 <= i < j < |allocs| ==> allocs[i].id != allocs[j].id
    requires mid.signature == db.signature && PlacedOne(db, mid, allocs[0], now)
    requires forall t :: t != allocs[0].id ==> Untouched(db, mid, t)
    requires forall a :: a in allocs[1..] ==> a.id in mid.tasks
    requires Placed(mid, next, allocs[1..], now)
    ensures Placed(db, next, allocs, now)
  {
    forall a | a in allocs[1..] ensures a in allocs && a.id != allocs[0].id {
      var i :| 0 <= i < |allocs| - 1 && allocs[1..][i] == a;
      assert allocs[i + 1] == a;
    }
    assert allocs == [allocs[0]] + allocs[1..];
    forall a | a in allocs ensures PlacedOne(db, next, a, now) {
      if a in allocs[1..] {
        assert PlacedOne(mid, next, a, now) && Untouched(db, mid, a.id);
      } else {
        assert !Named(allocs[1..], a.id) && Untouched(mid, next, a.id);
      }
    }
    forall t | !Named(allocs, t) ensures Untouched(db, next, t) {
      assert allocs[0] in allocs;
      assert !Named(allocs[1..], t);
      assert Untouched(db, mid, t) && Untouched(mid, next, t);
    }
  }

  lemma TailStillPlaceable(db: Tables, mid: Tables, allocs: seq<Allocation>)
    requires allocs != [] && AllPlaceable(db, allocs)
    requires forall t :: t != allocs[0].id ==> Untouched(db, mid, t)
    ensures AllPlaceable(mid, allocs[1..])
  {
    forall a | a in allocs[1..] ensures Placeable(mid, a) {
      var i :| 0 <= i < |allocs| - 1 && allocs[1..][i] == a;
      assert allocs[i + 1].id != allocs[0].id && Placeable(db, allocs[i + 1]);
      assert Untouched(db, mid, a.id);
    }
  }

  lemma DistinctSplit(a: seq<int>, b: seq<int>)
    requires Distinct(a + b)
    ensures Distinct(a) && Distinct(b) && forall x :: x in a ==> x !in b
  {
    var s := a + b;
    forall i, j | 0 <= i < j < |a| ensures a[i] != a[j] {
      assert s[i] == a[i] && s[j] == a[j];
    }
    forall i, j | 0 <= i < j < |b| ensures b[i] != b[j] {
      assert s[|a| + i] == b[i] && s[|a| + j] == b[j];
    }
    forall x | x in a ensures x !in b {
      var i :| 0 <= i < |a| && a[i] == x;
      assert forall j :: 0 <= j < |b| ==> s[|a| + j] == b[j] && s[i] == x;
    }
  }

  /** Free slices for waiting tasks go in without violating any constraint. */
  lemma {:induction false} InsertAllPlaces(db: Tables, allocs: seq<Allocation>, now: int)
    requires Consistent(db) && AllPlaceable(db, allocs)
    requires Distinct(Flatten(allocs)) && Unrecorded(db, Flatten(allocs))
    ensures InsertAll(db, allocs, now).Ok?
    ensures Placed(db, InsertAll(db, allocs, now).value, allocs, now)
    decreases |allocs|
  {
    if allocs != [] {
      var a, rest := allocs[0], allocs[1..];
      assert Placeable(db, a);
      DistinctSplit(a.gpus, Flatten(rest));
      InsertPlaces(db, a, now);
      InsertKeeps(db, a, now);
      var mid := InsertLease(db, a, now).value;
      TailStillPlaceable(db, mid, allocs);
      forall r | r in mid.rows ensures r.gpu !in Flatten(rest) {
        if r !in db.rows {
          assert r in RowsFor(a);
        }
      }
      InsertAllPlaces(mid, rest, now);
      HeadPlaced(db, mid, InsertAll(mid, rest, now).value, allocs, now);
    }
  }

  ghost function SeenInput(db: Tables, env: Env, cfg: Settings): Input
    requires ViewLocked(db, env, cfg).Ok?
  {
    var (seen, view) := ViewLocked(db, env, cfg).value;
    PlanInput(seen, view.free, |env.snapshot.value.gpus|, |view.external|, cfg.reserve, cfg.strict)
  }

  lemma PlanFits(seen: Tables, inp: Input, now: int)
    requires Consistent(seen) && inp.waiting == Waiting(seen) && Plan(inp).Ok?
    requires Distinct(inp.free) && Unrecorded(seen, inp.free)
    ensures forall a :: a in Plan(inp).value ==> a.id in seen.tasks
    ensures InsertAll(seen, Plan(inp).value, now).Ok?
    ensures Placed(seen, InsertAll(seen, Plan(inp).value, now).value, Plan(inp).value, now)
  {
    PlanPlaceable(seen, inp);
    WaitingLists(seen);
    PlanSound(inp);
    InsertAllPlaces(seen, Plan(inp).value, now);
  }

  lemma FreeIsUnrecorded(db: Tables, env: Env, cfg: Settings)
    requires Consistent(db) && Inside(db) && ViewLocked(db, env, cfg).Ok?
    ensures var (seen, view) := ViewLocked(db, env, cfg).value;
            Consistent(seen) && Inside(seen) && Distinct(view.free) && Unrecorded(seen, view.free)
  {
    var (seen, view) := ViewLocked(db, env, cfg).value;
    ViewKeeps(db, env, cfg);
    UntakenMembers(env.snapshot.value.gpus, ActiveGpus(seen) + view.external);
    forall r | r in seen.rows ensures r.gpu !in view.free {
      assert Holding(seen, r.task);
      assert r.gpu in ActiveGpus(seen);
    }
  }

  /** An allocation from free GPUs records the whole plan, or nothing when the plan is refused. */
  lemma AllocateRefinesPlan(seen: Tables, inp: Input, now: int)
    requires Consistent(seen) && Distinct(inp.free) && Unrecorded(seen, inp.free)
    requires inp == PlanInput(seen, inp.free, inp.total, inp.externalBusy, inp.reserve, inp.strictFifo)
    ensures var r := AllocateBatch(seen, inp.free, inp.total, inp.externalBusy, inp.reserve, inp.strictFifo, now);
            match Plan(inp)
            case Err(e) => r == Err(PlanRefused(e))
            case Ok(allocs) => r.Ok? && (forall a :: a in allocs ==> a.id in seen.tasks)
                               && Placed(seen, r.value, allocs, now)
  {
    AllocateByPlan(seen, inp, now);
    if Plan(inp).Ok? {
      PlanFits(seen, inp, now);
    }
  }

  lemma AllocateByPlan(seen: Tables, inp: Input, now: int)
    requires inp == PlanInput(seen, inp.free, inp.total, inp.externalBusy, inp.reserve, inp.strictFifo)
    ensures Plan(inp).Err? ==>
              AllocateBatch(seen, inp.free, inp.total, inp.externalBusy, inp.reserve, inp.strictFifo, now)
              == Err(PlanRefused(Plan(inp).error))
    ensures Plan(inp).Ok? && (forall a :: a in Plan(inp).value ==> a.id in seen.tasks) ==>
              AllocateBatch(seen, inp.free, inp.total, inp.externalBusy, inp.reserve, inp.strictFifo, now)
              == InsertAll(seen, Plan(inp).value, now)
  {
  }

  lemma ScheduleFromView(db: Tables, env: Env, cfg: Settings, seen: Tables, view: View)
    requires ViewLocked(db, env, cfg) == Ok((seen, view))
    ensures var r := AllocateBatch(seen, view.free, |env.snapshot.value.gpus|, |view.external|,
                                   cfg.reserve, cfg.strict, env.now);
            ScheduleLocked(db, env, cfg) == if r.Ok? then (r.value, None) else (seen, Some(r.error))
  {
  }

  /** One schedule step refines the planner and is all or nothing: after a successful view either
      every planned lease is recorded, with exactly its planned slice and nothing else changed, or
      the plan was refused and only the view's own effects remain. No insertion ever fails. */
  lemma ScheduleRefinesPlan(db: Tables, env: Env, cfg: Settings)
    requires Consistent(db) && Inside(db)
    ensures match ViewLocked(db, env, cfg)
            case Err(e) => ScheduleLocked(db, env, cfg) == (db, Some(e))
            case Ok((seen, _)) =>
              match Plan(SeenInput(db, env, cfg))
              case Err(e) => ScheduleLocked(db, env, cfg) == (seen, Some(PlanRefused(e)))
              case Ok(allocs) =>
                && ScheduleLocked(db, env, cfg).1 == None
                && (forall a :: a in allocs ==> a.id in seen.tasks)
                && Placed(seen, ScheduleLocked(db, env, cfg).0, allocs, env.now)
  {
    if ViewLocked(db, env, cfg).Ok? {
      var (seen, view) := ViewLocked(db, env, cfg).value;
      FreeIsUnrecorded(db, env, cfg);
      AllocateRefinesPlan(seen, SeenInput(db, env, cfg), env.now);
    }
  }

  /** A task leased by this step, and the slice it got. */
  ghost predicate NewLease(seen: Tables, next: Tables, t: TaskId) {
    Holding(next, t) && !Holding(seen, t)
  }

  ghost predicate LeasedWell(seen: Tables, next: Tables, t: TaskId, free: seq<GpuId>, total: int) {
    && t in QueuedTasks(seen)
    && Members(GpusOf(next, t)) <= Members(free) && Distinct(GpusOf(next, t))
    && Capacity(RequestOf(seen, t), total).Ok?
    && seen.tasks[t].minGpus <= |GpusOf(next, t)| <= Capacity(RequestOf(seen, t), total).value
  }

  /** New leases go to waiting tasks only, take free GPUs only, never share one, and are sized between
      the request's minimum and its capacity. */
  lemma NewLeasesAreSound(db: Tables, env: Env, cfg: Settings, t: TaskId)
    requires Consistent(db) && Inside(db) && ViewLocked(db, env, cfg).Ok?
    requires NewLease(ViewLocked(db, env, cfg).value.0, ScheduleLocked(db, env, cfg).0, t)
    ensures LeasedWell(ViewLocked(db, env, cfg).value.0, ScheduleLocked(db, env, cfg).0, t,
                       ViewLocked(db, env, cfg).value.1.free, |env.snapshot.value.gpus|)
    ensures forall u :: u != t ==>
              Members(GpusOf(ScheduleLocked(db, env, cfg).0, t)) !! Members(GpusOf(ScheduleLocked(db, env, cfg).0, u))
  {
    var (seen, view) := ViewLocked(db, env, cfg).value;
    var next := ScheduleLocked(db, env, cfg).0;
    var inp := SeenInput(db, env, cfg);
    ScheduleRefinesPlan(db, env, cfg);
    FreeIsUnrecorded(db, env, cfg);
    var allocs := Plan(inp).value;
    assert Named(allocs, t) || Untouched(seen, next, t);
    SliceOf(seen, inp, next, t, env.now);
    var ops := ScheduleIsRun(db, env, cfg);
    RunKeeps(db, ops);
    forall u, g | u != t && g in GpusOf(next, t) && g in GpusOf(next, u) ensures false {
      OneOwner(next, t, u, g);
    }
  }

  lemma SliceOf(seen: Tables, inp: Input, next: Tables, t: TaskId, now: int)
    requires inp.waiting == Waiting(seen) && Plan(inp).Ok? && Distinct(inp.free)
    requires forall a :: a in Plan(inp).value ==> a.id in seen.tasks
    requires Placed(seen, next, Plan(inp).value, now) && Named(Plan(inp).value, t)
    ensures LeasedWell(seen, next, t, inp.free, inp.total)
  {
    WaitingLists(seen);
    PlanSound(inp);
    var a :| a in Plan(inp).value && a.id == t;
    var r :| Serves(inp, a, r);
    assert r in inp.waiting;
    forall g | g in a.gpus ensures g in inp.free {
      InFlatten(Plan(inp).value, a, g);
    }
    SlicesDistinct(Plan(inp).value, a);
    assert PlacedOne(seen, next, a, now);
  }

  lemma {:induction false} SlicesDistinct(allocs: seq<Allocation>, a: Allocation)
    requires a in allocs && Distinct(Flatten(allocs))
    ensures Distinct(a.gpus)
  {
    DistinctSplit(allocs[0].gpus, Flatten(allocs[1..]));
    if allocs[0] != a {
      SlicesDistinct(allocs[1..], a);
    }
  }

  // ---- When a schedule step succeeds ----------------------------------------------------------

  /** The inventory may be adopted: nothing is stored, nothing changed, or no lease survives recovery. */
  ghost predicate InventoryAgrees(db: Tables, env: Env, cfg: Settings)
    requires env.snapshot.Some?
  {
    || db.signature.None?
    || db.signature == Some(Members(env.snapshot.value.gpus))
    || forall t :: Holding(db, t) ==> Stale(db.leases[t], env.now, cfg.timeout, env.procs)
  }

  lemma ViewSucceedsExactly(db: Tables, env: Env, cfg: Settings)
    requires Consistent(db) && Inside(db)
    ensures ViewLocked(db, env, cfg).Ok?
            <==> && env.snapshot.Some? && Distinct(env.snapshot.value.gpus) && env.snapshot.value.gpus != []
                 && InventoryAgrees(db, env, cfg)
  {
    if env.snapshot.Some? {
      var gpus := env.snapshot.value.gpus;
      var recovered := RecoverStale(db, env.now, cfg.timeout, env.procs);
      RecoveredInside(db, env.now, cfg.timeout, env.procs);
      NoneLeft(db, env.now, cfg.timeout, env.procs);
      ValidInside(recovered, gpus);
    }
  }

  /** And a view fails for one of two reasons: there is no usable inventory, or it changed while a lease
      outlives recovery. */
  lemma ViewFailsExactly(db: Tables, env: Env, cfg: Settings)
    requires Consistent(db) && Inside(db)
    ensures ViewLocked(db, env, cfg) == Err(BadInventory)
            <==> env.snapshot.None? || !Distinct(env.snapshot.value.gpus) || env.snapshot.value.gpus == []
    ensures ViewLocked(db, env, cfg) == Err(InventoryChanged)
            <==> && env.snapshot.Some? && Distinct(env.snapshot.value.gpus) && env.snapshot.value.gpus != []
                 && !InventoryAgrees(db, env, cfg)
  {
    ViewSucceedsExactly(db, env, cfg);
    if env.snapshot.Some? {
      RecoveredInside(db, env.now, cfg.timeout, env.procs);
      ValidInside(RecoverStale(db, env.now, cfg.timeout, env.procs), env.snapshot.value.gpus);
    }
  }

  lemma RecoveredInside(db: Tables, now: int, timeout: int, procs: Procs)
    requires Consistent(db) && Inside(db)
    ensures Consistent(RecoverStale(db, now, timeout, procs)) && Inside(RecoverStale(db, now, timeout, procs))
  {
    RecoverKeeps(db, now, timeout, procs);
    QuietInside(db, Recover(now, timeout, procs));
  }

  lemma ValidInside(db: Tables, gpus: seq<GpuId>)
    requires Consistent(db) && Inside(db)
    ensures ValidateSignature(db, gpus).Ok? ==> ActiveGpus(ValidateSignature(db, gpus).value) <= Members(gpus)
  {
    StepKeepsInside(db, Validate(gpus));
  }

  lemma NoneLeft(db: Tables, now: int, timeout: int, procs: Procs)
    ensures var recovered := RecoverStale(db, now, timeout, procs);
            && recovered.signature == db.signature
            && (ActiveTasks(recovered) == {}
                <==> forall t :: Holding(db, t) ==> Stale(db.leases[t], now, timeout, procs))
  {
    var recovered := RecoverStale(db, now, timeout, procs);
    forall t ensures t in ActiveTasks(recovered) <==> Holding(db, t) && !Stale(db.leases[t], now, timeout, procs) {
    }
    if ActiveTasks(recovered) != {} {
      SomeTask(ActiveTasks(recovered));
    }
  }

  lemma SeenInputPlausible(db: Tables, env: Env, cfg: Settings)
    requires Consistent(db) && Inside(db) && ViewLocked(db, env, cfg).Ok?
    ensures var inp := SeenInput(db, env, cfg);
            Distinct(inp.free) && 1 <= inp.total && |inp.free| <= inp.total
            && inp.activeJobs >= 0 && inp.externalBusy >= 0 && inp.reserve >= 0
            && Distinct(Ids(inp.waiting))
            && ((forall r :: r in inp.waiting ==> WellSized(r, inp.total))
                <==> forall t :: t in QueuedTasks(db) ==> WellSized(RequestOf(db, t), inp.total))
  {
    var (seen, view) := ViewLocked(db, env, cfg).value;
    FreeIsUnrecorded(db, env, cfg);
    ViewKeepsQueue(db, env, cfg);
    WaitingLists(seen);
    UntakenMembers(env.snapshot.value.gpus, ActiveGpus(seen) + view.external);
    assert forall t :: t in QueuedTasks(db) ==> RequestOf(seen, t) == RequestOf(db, t);
    assert forall t :: t in QueuedTasks(db) ==> RequestOf(db, t) in Waiting(seen);
  }

  /** A schedule step succeeds exactly when the inventory is acceptable and every waiting request has
      a size the host could ever meet. */
  lemma ScheduleSucceedsExactly(db: Tables, env: Env, cfg: Settings)
    requires Consistent(db) && Inside(db)
    ensures ScheduleLocked(db, env, cfg).1.None?
            <==> && env.snapshot.Some? && Distinct(env.snapshot.value.gpus) && env.snapshot.value.gpus != []
                 && InventoryAgrees(db, env, cfg)
                 && forall t :: t in QueuedTasks(db) ==>
                      WellSized(RequestOf(db, t), |env.snapshot.value.gpus|)
  {
    ViewSucceedsExactly(db, env, cfg);
    ScheduleRefinesPlan(db, env, cfg);
    if ViewLocked(db, env, cfg).Ok? {
      SeenInputPlausible(db, env, cfg);
      PlanAcceptedExactly(SeenInput(db, env, cfg));
    }
  }

  /** One unbounded request whose minimum exceeds the host is admitted by the queue but refused by the
      planner: this schedule step launches no waiting task of any session, and since the refusal is not
      an expected error, the request is not withdrawn either. */
  lemma OversizedRequestStallsEverybody(db: Tables, env: Env, cfg: Settings, t: TaskId)
    requires Consistent(db) && Inside(db) && ViewLocked(db, env, cfg).Ok?
    requires t in QueuedTasks(db) && db.tasks[t].maxGpus.None?
    requires db.tasks[t].minGpus > |env.snapshot.value.gpus|
    ensures var (next, failure) := ScheduleLocked(db, env, cfg);
            && QueuedTasks(next) == QueuedTasks(db)
            && failure.Some? && !Expected(failure.value)
  {
    ScheduleSucceedsExactly(db, env, cfg);
    assert !WellSized(RequestOf(db, t), |env.snapshot.value.gpus|);
    ScheduleRefinesPlan(db, env, cfg);
    ViewKeepsQueue(db, env, cfg);
  }

  // ---- What an invocation leaves behind -------------------------------------------------------

  lemma WithdrawTouchesOne(db: Tables, t: TaskId, now: int)
    requires Consistent(db) && t in db.tasks && Unclaimed(db, t)
    ensures forall u :: u != t ==> Untouched(db, CleanUp(db, t, now), u)
  {
    forall u | u != t ensures Untouched(db, CleanUp(db, t, now), u) {
      GpusWithout(db.rows, {t}, u);
    }
  }

  lemma WithdrawEnds(db: Tables, t: TaskId, now: int)
    requires Consistent(db) && t in db.tasks && Unclaimed(db, t)
    ensures Consistent(CleanUp(db, t, now)) && t in CleanUp(db, t, now).tasks
    ensures CleanUp(db, t, now).tasks[t].status == Cancelled
    ensures !(Holding(db, t) && db.leases[t].pid.Some?)
  {
    assert Shaped(db, t);
    EndKeeps(db, t, Cancelled, Some(130), Some("cancelled before start"), now);
  }

  /** After withdrawing, the task is neither waiting nor reserved without a supervisor; a task that some
      process has claimed, and every other task, is left alone. */
  lemma WithdrawLeavesNoOrphan(db: Tables, t: TaskId, now: int)
    requires Consistent(db) && t in db.tasks
    ensures Consistent(CleanUp(db, t, now)) && t in CleanUp(db, t, now).tasks && !Unclaimed(CleanUp(db, t, now), t)
    ensures Holding(db, t) && db.leases[t].pid.Some? ==> CleanUp(db, t, now) == db
    ensures forall u :: u != t ==> Untouched(db, CleanUp(db, t, now), u)
  {
    assert Shaped(db, t);
    if Unclaimed(db, t) {
      WithdrawEnds(db, t, now);
      WithdrawTouchesOne(db, t, now);
    } else {
      assert forall u :: Untouched(db, db, u);
    }
  }

  /** After a schedule step the task is either still queued or reserved and unclaimed. */
  lemma ScheduledTask(db: Tables, env: Env, cfg: Settings, t: TaskId)
    requires Consistent(db) && Inside(db) && t in QueuedTasks(db)
    ensures var (next, failure) := ScheduleLocked(db, env, cfg);
            && Consistent(next) && t in next.tasks
            && (next.tasks[t].status == Queued || (failure.None? && next.tasks[t].status == Launching))
  {
    var ops := ScheduleIsRun(db, env, cfg);
    RunKeeps(db, ops);
    ScheduleRefinesPlan(db, env, cfg);
    if ViewLocked(db, env, cfg).Ok? {
      ViewKeepsQueue(db, env, cfg);
      if Plan(SeenInput(db, env, cfg)).Ok? {
        PlacedTask(ViewLocked(db, env, cfg).value.0, ScheduleLocked(db, env, cfg).0,
                   Plan(SeenInput(db, env, cfg)).value, env.now, t);
      }
    }
  }

  lemma PlacedTask(seen: Tables, next: Tables, allocs: seq<Allocation>, now: int, t: TaskId)
    requires t in QueuedTasks(seen) && forall a :: a in allocs ==> a.id in seen.tasks
    requires Placed(seen, next, allocs, now)
    ensures t in next.tasks && (next.tasks[t].status == Queued || next.tasks[t].status == Launching)
  {
    if Named(allocs, t) {
      var a :| a in allocs && a.id == t;
      assert PlacedOne(seen, next, a, now);
    } else {
      assert Untouched(seen, next, t);
    }
  }

  /** What a first arrival gets: a running task of its own with GPUs within its bounds; or a place in
      the queue; or an error, and then it is not reserved either. The claim itself never fails. */
  ghost predicate EntrySound(db: Tables, next: Tables, t: TaskId, self: Pid, reply: Reply) {
    match reply
    case Runs(lease) =>
      && Holding(next, t) && next.leases[t] == lease && lease.pid == Some(self)
      && t in next.tasks && next.tasks[t].status == Running && FitsRequest(next.tasks[t], |GpusOf(next, t)|)
    case Waits => t in next.tasks && next.tasks[t].status == Queued && t !in next.leases
    case Refused(e) =>
      next == db || (t in next.tasks && next.tasks[t].status == Queued && t !in next.leases)
    case Ended(_) => false
  }

  lemma ClaimOutcome(db: Tables, mid: Tables, t: TaskId, self: Pid, procs: Procs, now: int)
    requires Consistent(mid) && t in mid.tasks
    requires mid.tasks[t].status == Queued || mid.tasks[t].status == Launching
    ensures match ClaimTask(mid, t, self, procs, now)
            case Err(_) => false
            case Ok((next, lease)) => EntrySound(db, next, t, self, if lease.None? then Waits else Runs(lease.value))
  {
    assert Shaped(mid, t) && Sized(mid, t);
    StepKeeps(mid, Claim(t, self, procs, now));
    var next := Step(mid, Claim(t, self, procs, now));
    assert t in next.tasks && Shaped(next, t) && Sized(next, t);
  }

  lemma EntryOutcome(db: Tables, a: Arrival, self: Pid, env: Env, cfg: Settings)
    requires Consistent(db) && Inside(db)
    ensures EntrySound(db, Enter(db, a, self, env, cfg).0, a.t, self, Enter(db, a, self, env, cfg).1)
  {
    var op := Add(a.t, a.minGpus, a.maxGpus, a.priority, env.now, a.argvGiven, a.cwdExists);
    if Apply(db, op).Ok? {
      var added := Step(db, op);
      StepKeeps(db, op);
      StepKeepsInside(db, op);
      EntryTurn(db, added, a.t, self, env, cfg, ScheduleLocked(added, env, cfg));
    }
  }

  lemma EntryTurn(db: Tables, added: Tables, t: TaskId, self: Pid, env: Env, cfg: Settings,
                  result: (Tables, Option<StoreError>))
    requires Consistent(added) && Inside(added) && t in QueuedTasks(added)
    requires result == ScheduleLocked(added, env, cfg)
    ensures var (next, reply) := ScheduleAndClaim(added, t, self, env, cfg);
            EntrySound(db, next, t, self, reply)
  {
    ScheduledTask(added, env, cfg, t);
    if result.1.None? {
      ClaimOutcome(db, result.0, t, self, env.procs, env.now);
    } else {
      assert Shaped(result.0, t);
    }
  }

  /** When the cancelled task's process cannot be signalled, the cancellation recovers with the default
      launch timeout of 300 seconds, so it releases a launch that the session's own recovery would still wait for,
      exactly in the time between the two timeouts. */
  lemma CancelRecoversEarlyExactly(db: Tables, t: TaskId, u: TaskId, delivered: bool, procs: Procs, now: int,
                                   timeout: int)
    requires Consistent(db) && Holding(db, t) && db.leases[t].pid.Some?
    requires !(delivered && PidMatches(procs, db.leases[t].pid, db.leases[t].pidStart))
    requires u != t && Holding(db, u) && db.leases[u].pid.None?
    ensures CancelTask(db, t, delivered, procs, now).Ok?
    ensures !Holding(CancelTask(db, t, delivered, procs, now).value, u)
            && Holding(RecoverStale(db, now, timeout, procs), u)
            <==> 300_000_000_000 <= now - db.leases[u].reservedAt < timeout
  {
    assert Shaped(db, t) && Shaped(db, u);
  }
}

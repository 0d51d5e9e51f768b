/** Any number of sessions over one database: processes start, die and have their PIDs reused, and
    every locked section is one step. */
module Protocol {
  import opened Prelude
  import opened Planner
  import opened PlannerTheorems
  import opened StoreSpec
  import opened StateStores
  import opened StoreInvariant
  import opened Coordination

  /** One session's step, or a process event. Sections carry what the session observed. */
  datatype Event =
    | Enqueues(a: Arrival, now: int)
    | Enters(a: Arrival, self: Pid, snapshot: Option<Snapshot>, cfg: Settings, now: int)
    | Polls(t: TaskId, self: Pid, snapshot: Option<Snapshot>, cfg: Settings, now: int)
    | Withdraws(t: TaskId, now: int)
    | TimesOut(t: TaskId, now: int)
    | Binds(t: TaskId, supervisor: Pid, child: Pid)
    | Finishes(t: TaskId, pid: Option<Pid>, start: Option<int>, exitCode: int, error: Option<string>, now: int)
    | Cancels(t: TaskId, delivered: bool, now: int)
    | Collects(cfg: Settings, now: int)
    | Looks(snapshot: Option<Snapshot>, cfg: Settings, now: int)
    | Starts(born: Pid)
    | Exits(dead: Pid)

  /** `ticks` is the start time the next process will get. */
  datatype World = World(db: Tables, procs: Procs, ticks: int)

  ghost function SectionDb(db: Tables, procs: Procs, e: Event): Tables {
    match e
    case Enqueues(a, now) => Step(db, Add(a.t, a.minGpus, a.maxGpus, a.priority, now, a.argvGiven, a.cwdExists))
    case Enters(a, self, snapshot, cfg, now) => Enter(db, a, self, Env(snapshot, procs, now), cfg).0
    case Polls(t, self, snapshot, cfg, now) => Poll(db, t, self, Env(snapshot, procs, now), cfg).0
    case Withdraws(t, now) => CleanUp(db, t, now)
    case TimesOut(t, now) => Step(db, Cancel(t, now))
    case Binds(t, supervisor, child) => Step(db, Bind(t, supervisor, child, StartTime(procs, child)))
    case Finishes(t, pid, start, code, error, now) => Step(db, Finish(t, pid, start, code, error, now))
    case Cancels(t, delivered, now) =>
      (match CancelTask(db, t, delivered, procs, now) case Ok(next) => next case Err(_) => db)
    case Collects(cfg, now) => RecoverStale(db, now, cfg.timeout, procs)
    case Looks(snapshot, cfg, now) =>
      (match ViewLocked(db, Env(snapshot, procs, now), cfg) case Ok(p) => p.0 case Err(_) => db)
    case Starts(_) => db
    case Exits(_) => db
  }

  ghost function Next(w: World, e: Event): World {
    match e
    case Starts(pid) => if pid in w.procs || pid < 1 then w else World(w.db, w.procs[pid := w.ticks], w.ticks + 1)
    case Exits(pid) => w.(procs := w.procs - {pid})
    case _ => w.(db := SectionDb(w.db, w.procs, e))
  }

  ghost function After(w: World, events: seq<Event>): World
    decreases |events|
  {
    if events == [] then w else After(Next(w, events[0]), events[1..])
  }

  const START := World(EMPTY, map[], 0)

  // ---- Sections are runs of store operations --------------------------------------------------

  /** Allocations are cut only from GPUs of the stored signature. */
  ghost predicate Guarded(db: Tables, ops: seq<Op>)
    decreases |ops|
  {
    ops != [] ==>
      && (ops[0].Allocate? ==> db.signature.Some? && Members(ops[0].free) <= db.signature.value)
      && Guarded(Step(db, ops[0]), ops[1..])
  }

  /** The operation looks at this process table and neither binds nor finishes a task. */
  ghost predicate Honest(op: Op, procs: Procs) {
    match op
    case Claim(_, _, seen, _) => seen == procs
    case Recover(_, _, seen) => seen == procs
    case Bind(_, _, _, _) => false
    case Finish(_, _, _, _, _, _) => false
    case _ => true
  }

  ghost predicate AllHonest(ops: seq<Op>, procs: Procs) {
    forall op :: op in ops ==> Honest(op, procs)
  }

  lemma {:induction false} GuardedConcat(db: Tables, a: seq<Op>, b: seq<Op>)
    requires Guarded(db, a) && Guarded(Run(db, a), b)
    ensures Guarded(db, a + b)
    decreases |a|
  {
    if a == [] {
      assert a + b == b;
    } else {
      assert (a + b)[0] == a[0] && (a + b)[1..] == a[1..] + b;
      GuardedConcat(Step(db, a[0]), a[1..], b);
    }
  }

  lemma {:induction false} UntakenMembers(gpus: seq<GpuId>, taken: set<GpuId>)
    ensures forall g :: g in Untaken(gpus, taken) <==> g in gpus && g !in taken
    ensures Distinct(gpus) ==> Distinct(Untaken(gpus, taken))
    ensures |Untaken(gpus, taken)| <= |gpus|
  {
    if gpus != [] {
      var rest := Untaken(gpus[1..], taken);
      UntakenMembers(gpus[1..], taken);
      assert gpus == [gpus[0]] + gpus[1..];
    }
  }

  lemma ViewIsRun(db: Tables, env: Env, cfg: Settings) returns (ops: seq<Op>)
    requires ViewLocked(db, env, cfg).Ok?
    ensures Run(db, ops) == ViewLocked(db, env, cfg).value.0 && Guarded(db, ops) && AllHonest(ops, env.procs)
    ensures ViewLocked(db, env, cfg).value.0.signature == Some(Members(env.snapshot.value.gpus))
    ensures Members(ViewLocked(db, env, cfg).value.1.free) <= Members(env.snapshot.value.gpus)
  {
    var recover, validate := Recover(env.now, cfg.timeout, env.procs), Validate(env.snapshot.value.gpus);
    var seen, view := ViewLocked(db, env, cfg).value.0, ViewLocked(db, env, cfg).value.1;
    var recovered := Step(db, recover);
    ops := [recover] + [validate];
    RunConcat(db, [recover], [validate]);
    GuardedConcat(db, [recover], [validate]);
    UntakenMembers(env.snapshot.value.gpus, ActiveGpus(seen) + view.external);
  }

  lemma ScheduleIsRun(db: Tables, env: Env, cfg: Settings) returns (ops: seq<Op>)
    ensures Run(db, ops) == ScheduleLocked(db, env, cfg).0 && Guarded(db, ops) && AllHonest(ops, env.procs)
  {
    if ViewLocked(db, env, cfg).Err? {
      ops := [];
    } else {
      var (seen, view) := ViewLocked(db, env, cfg).value;
      var look := ViewIsRun(db, env, cfg);
      var op := Allocate(view.free, |env.snapshot.value.gpus|, |view.external|, cfg.reserve, cfg.strict, env.now);
      assert Run(seen, [op]) == Step(seen, op) && Guarded(seen, [op]) by {
        assert [op][1..] == [];
        assert Run(Step(seen, op), []) == Step(seen, op) && Guarded(Step(seen, op), []);
      }
      RunConcat(db, look, [op]);
      GuardedConcat(db, look, [op]);
      ops := look + [op];
    }
  }

  lemma ClaimAfter(db: Tables, ops: seq<Op>, t: TaskId, self: Pid, procs: Procs, now: int) returns (all: seq<Op>)
    requires Guarded(db, ops) && AllHonest(ops, procs)
    ensures Run(db, all) == Step(Run(db, ops), Claim(t, self, procs, now))
    ensures Guarded(db, all) && AllHonest(all, procs)
  {
    var op := Claim(t, self, procs, now);
    RunConcat(db, ops, [op]);
    GuardedConcat(db, ops, [op]);
    all := ops + [op];
  }

  lemma TurnIsRun(db: Tables, t: TaskId, self: Pid, env: Env, cfg: Settings) returns (ops: seq<Op>)
    ensures Run(db, ops) == ScheduleAndClaim(db, t, self, env, cfg).0
    ensures Guarded(db, ops) && AllHonest(ops, env.procs)
  {
    ops := ScheduleIsRun(db, env, cfg);
    TurnClaims(db, t, self, env, cfg, ScheduleLocked(db, env, cfg));
    if ScheduleLocked(db, env, cfg).1.None? {
      ops := ClaimAfter(db, ops, t, self, env.procs, env.now);
    }
  }

  lemma TurnClaims(db: Tables, t: TaskId, self: Pid, env: Env, cfg: Settings, result: (Tables, Option<StoreError>))
    requires result == ScheduleLocked(db, env, cfg)
    ensures ScheduleAndClaim(db, t, self, env, cfg).0
            == if result.1.Some? then result.0 else Step(result.0, Claim(t, self, env.procs, env.now))
  {
  }

  lemma EnterIsRun(db: Tables, a: Arrival, self: Pid, env: Env, cfg: Settings) returns (ops: seq<Op>)
    ensures Run(db, ops) == Enter(db, a, self, env, cfg).0 && Guarded(db, ops) && AllHonest(ops, env.procs)
  {
    var add := Add(a.t, a.minGpus, a.maxGpus, a.priority, env.now, a.argvGiven, a.cwdExists);
    ops := [add];
    if Apply(db, add).Ok? {
      var rest := TurnIsRun(Step(db, add), a.t, self, env, cfg);
      RunConcat(db, [add], rest);
      GuardedConcat(db, [add], rest);
      ops := [add] + rest;
    }
  }

  lemma CancelIsRun(db: Tables, t: TaskId, delivered: bool, procs: Procs, now: int) returns (ops: seq<Op>)
    requires CancelTask(db, t, delivered, procs, now).Ok?
    ensures Run(db, ops) == CancelTask(db, t, delivered, procs, now).value
    ensures Guarded(db, ops) && AllHonest(ops, procs)
  {
    var cancel, recover := Cancel(t, now), Recover(now, LAUNCH_TIMEOUT, procs);
    ops := [cancel];
    if Step(db, cancel) != CancelTask(db, t, delivered, procs, now).value {
      RunConcat(db, [cancel], [recover]);
      GuardedConcat(db, [cancel], [recover]);
      ops := [cancel] + [recover];
    }
  }

  /** Every section amounts to a run of store operations that allocate only inside the signature, so
      all that holds over runs of operations holds over the protocol. */
  lemma SectionIsRun(db: Tables, procs: Procs, e: Event) returns (ops: seq<Op>)
    ensures Run(db, ops) == SectionDb(db, procs, e) && Guarded(db, ops)
    ensures !e.Binds? && !e.Finishes? ==> AllHonest(ops, procs)
  {
    ops := [];
    match e
    case Enqueues(a, now) =>
      ops := [Add(a.t, a.minGpus, a.maxGpus, a.priority, now, a.argvGiven, a.cwdExists)];
    case Enters(a, self, snapshot, cfg, now) => ops := EnterIsRun(db, a, self, Env(snapshot, procs, now), cfg);
    case Polls(t, self, snapshot, cfg, now) =>
      if t in db.tasks && !Terminal(db.tasks[t].status) {
        ops := TurnIsRun(db, t, self, Env(snapshot, procs, now), cfg);
      }
    case Withdraws(t, now) =>
      if t in db.tasks && Unclaimed(db, t) {
        ops := [Cancel(t, now)];
      }
    case TimesOut(t, now) =>
      ops := [Cancel(t, now)];
    case Binds(t, supervisor, child) =>
      ops := [Bind(t, supervisor, child, StartTime(procs, child))];
    case Finishes(t, pid, start, code, error, now) =>
      ops := [Finish(t, pid, start, code, error, now)];
    case Cancels(t, delivered, now) =>
      if CancelTask(db, t, delivered, procs, now).Ok? {
        ops := CancelIsRun(db, t, delivered, procs, now);
      }
    case Collects(cfg, now) =>
      ops := [Recover(now, cfg.timeout, procs)];
    case Looks(snapshot, cfg, now) =>
      if ViewLocked(db, Env(snapshot, procs, now), cfg).Ok? {
        ops := ViewIsRun(db, Env(snapshot, procs, now), cfg);
      }
    case Starts(_) =>
    case Exits(_) =>
  }

  /** A whole protocol run is a run of store operations. */
  lemma {:induction false} ProtocolIsRun(w: World, events: seq<Event>) returns (ops: seq<Op>)
    ensures Run(w.db, ops) == After(w, events).db
    decreases |events|
  {
    if events == [] {
      ops := [];
    } else {
      var first := SectionIsRun(w.db, w.procs, events[0]);
      var rest := ProtocolIsRun(Next(w, events[0]), events[1..]);
      RunConcat(w.db, first, rest);
      ops := first + rest;
    }
  }

  // ---- The protocol invariant -----------------------------------------------------------------

  /** All actively leased GPUs lie inside the stored signature. */
  ghost predicate Inside(db: Tables) {
    && (ActiveTasks(db) != {} ==> db.signature.Some?)
    && forall r :: r in db.rows ==> db.signature.Some? && r.gpu in db.signature.value
  }

  lemma StepKeepsInside(db: Tables, op: Op)
    requires Consistent(db) && Inside(db)
    requires op.Allocate? ==> db.signature.Some? && Members(op.free) <= db.signature.value
    ensures Inside(Step(db, op))
  {
    if op.Allocate? && Apply(db, op).Ok? {
      AllocateInside(db, op);
    } else if op.Validate? {
      ValidateInside(db, op.uuids);
    } else if !op.Allocate? {
      QuietInside(db, op);
    }
  }

  lemma ValidateInside(db: Tables, uuids: seq<GpuId>)
    requires Consistent(db) && Inside(db)
    ensures Inside(Step(db, Validate(uuids)))
  {
    forall r | r in db.rows ensures r.task in ActiveTasks(db) {
      assert Holding(db, r.task);
    }
  }

  lemma QuietInside(db: Tables, op: Op)
    requires Consistent(db) && Inside(db) && !op.Allocate? && !op.Validate?
    ensures Inside(Step(db, op))
  {
    var next := Step(db, op);
    assert next.signature == db.signature;
    StepKeeps(db, op);
    forall t | t in ActiveTasks(next) ensures db.signature.Some? {
      assert t in db.leases ==> LeaseEvolves(db, next, t);
      assert t in ActiveTasks(db);
    }
    QuietRows(db, op);
  }

  lemma QuietRows(db: Tables, op: Op)
    requires !op.Allocate? && !op.Validate?
    ensures forall r :: r in Step(db, op).rows ==> r in db.rows
  {
    match op
    case Finish(t, _, _, _, _, _) => WithoutMembers(db.rows, {t});
    case Cancel(t, _) => WithoutMembers(db.rows, {t});
    case Recover(now, timeout, procs) => WithoutMembers(db.rows, StaleTasks(db, now, timeout, procs));
    case _ =>
  }

  lemma AllocateInside(db: Tables, op: Op)
    requires Consistent(db) && Inside(db) && op.Allocate? && Apply(db, op).Ok?
    requires db.signature.Some? && Members(op.free) <= db.signature.value
    ensures Inside(Step(db, op))
  {
    var inp := PlanInput(db, op.free, op.total, op.external, op.reserve, op.strict);
    WaitingLists(db);
    PlanSound(inp);
    forall a, g | a in Plan(inp).value && g in a.gpus ensures g in db.signature.value {
      InFlatten(Plan(inp).value, a, g);
      assert g in Members(op.free);
    }
    InsertAllInside(db, Plan(inp).value, op.now);
    InsertAllKeepsSignature(db, Plan(inp).value, op.now);
  }

  lemma {:induction false} InFlatten(allocs: seq<Allocation>, a: Allocation, g: GpuId)
    requires a in allocs && g in a.gpus
    ensures g in Flatten(allocs)
  {
    if allocs[0] != a {
      InFlatten(allocs[1..], a, g);
    }
  }

  lemma {:induction false} InsertAllInside(db: Tables, allocs: seq<Allocation>, now: int)
    requires (forall a :: a in allocs ==> a.id in db.tasks) && InsertAll(db, allocs, now).Ok?
    requires db.signature.Some? && forall a, g :: a in allocs && g in a.gpus ==> g in db.signature.value
    requires forall r :: r in db.rows ==> r.gpu in db.signature.value
    ensures forall r :: r in InsertAll(db, allocs, now).value.rows ==> r.gpu in db.signature.value
    decreases |allocs|
  {
    if allocs != [] {
      var next := InsertLease(db, allocs[0], now).value;
      forall r | r in next.rows ensures r.gpu in db.signature.value {
        if r !in db.rows {
          assert r in RowsFor(allocs[0]);
          assert allocs[0] in allocs && r.gpu in allocs[0].gpus;
        }
      }
      InsertAllInside(next, allocs[1..], now);
    }
  }

  lemma {:induction false} GuardedRunInside(db: Tables, ops: seq<Op>)
    requires Consistent(db) && Inside(db) && Guarded(db, ops)
    ensures Inside(Run(db, ops))
    decreases |ops|
  {
    if ops != [] {
      StepKeeps(db, ops[0]);
      StepKeepsInside(db, ops[0]);
      GuardedRunInside(Step(db, ops[0]), ops[1..]);
    }
  }

  ghost predicate Inv(w: World) {
    Consistent(w.db) && Inside(w.db)
  }

  lemma EventKeeps(w: World, e: Event)
    requires Inv(w)
    ensures Inv(Next(w, e)) && Evolves(w.db, Next(w, e).db)
  {
    var ops := SectionIsRun(w.db, w.procs, e);
    RunKeeps(w.db, ops);
    GuardedRunInside(w.db, ops);
  }

  /** In every interleaving of any number of sessions, with PIDs reused at will: status matches lease
      shape, no GPU is in two leases, and every leased GPU is inside the stored signature. */
  lemma {:induction false} ProtocolKeeps(w: World, events: seq<Event>)
    requires Inv(w)
    ensures Inv(After(w, events)) && Evolves(w.db, After(w, events).db)
    decreases |events|
  {
    if events == [] {
      SameKeeps(w.db, w.db);
    } else {
      var next := Next(w, events[0]);
      EventKeeps(w, events[0]);
      ProtocolKeeps(next, events[1..]);
    }
  }

  /** The signature never changes over any stretch of a run in which some task keeps its lease. */
  lemma SignatureFrozenWhileLeased(w: World, events: seq<Event>, t: TaskId)
    requires Inv(w) && Holding(w.db, t) && Holding(After(w, events).db, t)
    ensures w.db.signature.Some? && After(w, events).db.signature == w.db.signature
  {
    assert t in ActiveTasks(w.db);
    var ops := ProtocolIsRun(w, events);
    HeldFreezesSignature(w.db, ops, t);
  }

  /** Hence the check that leased GPUs are known never fires: a view fails only where the inventory
      query or the signature check does. */
  lemma LeasesNeverLeaveInventory(w: World, env: Env, cfg: Settings)
    requires Inv(w) && ViewLocked(w.db, env, cfg).Err?
    ensures ViewLocked(w.db, env, cfg).error != LeaseOutsideInventory
  {
    if env.snapshot.Some? {
      var recover, validate := Recover(env.now, cfg.timeout, env.procs), Validate(env.snapshot.value.gpus);
      StepKeeps(w.db, recover);
      StepKeepsInside(w.db, recover);
      StepKeepsInside(Step(w.db, recover), validate);
    }
  }

  // ---- Process identity -----------------------------------------------------------------------

  /** Recorded start times were read from the process table, so they lie in the past. */
  ghost predicate PastLeases(db: Tables, ticks: int) {
    forall t :: t in db.leases && db.leases[t].pidStart.Some? ==> db.leases[t].pidStart.value < ticks
  }

  ghost predicate PastStarts(w: World) {
    PastLeases(w.db, w.ticks) && forall p :: p in w.procs ==> w.procs[p] < w.ticks
  }

  lemma {:induction false} InsertAllLeases(db: Tables, allocs: seq<Allocation>, now: int)
    requires (forall a :: a in allocs ==> a.id in db.tasks) && InsertAll(db, allocs, now).Ok?
    ensures forall t :: t in InsertAll(db, allocs, now).value.leases ==>
              || (t in db.leases && InsertAll(db, allocs, now).value.leases[t] == db.leases[t])
              || InsertAll(db, allocs, now).value.leases[t] == Lease(true, None, None, now, None, None)
    decreases |allocs|
  {
    if allocs != [] {
      InsertAllLeases(InsertLease(db, allocs[0], now).value, allocs[1..], now);
    }
  }

  lemma AllocatePast(db: Tables, op: Op, ticks: int)
    requires PastLeases(db, ticks) && op.Allocate? && Apply(db, op).Ok?
    ensures PastLeases(Step(db, op), ticks)
  {
    InsertAllLeases(db, Plan(PlanInput(db, op.free, op.total, op.external, op.reserve, op.strict)).value, op.now);
  }

  lemma StepPast(db: Tables, op: Op, procs: Procs, ticks: int)
    requires PastLeases(db, ticks) && forall p :: p in procs ==> procs[p] < ticks
    requires Honest(op, procs) || op.Finish? || (op.Bind? && op.childStart == StartTime(procs, op.child))
    ensures PastLeases(Step(db, op), ticks)
  {
    if op.Allocate? && Apply(db, op).Ok? {
      AllocatePast(db, op, ticks);
    }
  }

  lemma {:induction false} RunPast(db: Tables, ops: seq<Op>, procs: Procs, ticks: int)
    requires PastLeases(db, ticks) && (forall p :: p in procs ==> procs[p] < ticks) && AllHonest(ops, procs)
    ensures PastLeases(Run(db, ops), ticks)
    decreases |ops|
  {
    if ops != [] {
      assert ops[0] in ops;
      StepPast(db, ops[0], procs, ticks);
      RunPast(Step(db, ops[0]), ops[1..], procs, ticks);
    }
  }

  lemma EventPast(w: World, e: Event)
    requires PastStarts(w)
    ensures PastStarts(Next(w, e))
  {
    if e.Binds? {
      StepPast(w.db, Bind(e.t, e.supervisor, e.child, StartTime(w.procs, e.child)), w.procs, w.ticks);
    } else if e.Finishes? {
      StepPast(w.db, Finish(e.t, e.pid, e.start, e.exitCode, e.error, e.now), w.procs, w.ticks);
    } else {
      var ops := SectionIsRun(w.db, w.procs, e);
      RunPast(w.db, ops, w.procs, w.ticks);
    }
  }

  lemma {:induction false} RunPastStarts(w: World, events: seq<Event>)
    requires PastStarts(w)
    ensures PastStarts(After(w, events))
    decreases |events|
  {
    if events != [] {
      EventPast(w, events[0]);
      RunPastStarts(Next(w, events[0]), events[1..]);
    }
  }

  /** In every world reachable from the empty database the invariant holds, and every recorded start time
      lies before that of the next process. */
  lemma EveryReachableWorld(events: seq<Event>)
    ensures Inv(After(START, events)) && PastStarts(After(START, events))
  {
    ProtocolKeeps(START, events);
    RunPastStarts(START, events);
  }

  /** A dead identity stays dead: a process that reuses the PID gets a later start time, so nobody can
      mistake it for the one recorded in the lease. */
  lemma {:induction false} DeadStaysDead(w: World, events: seq<Event>, t: TaskId)
    requires PastStarts(w) && t in w.db.leases
    requires !PidMatches(w.procs, w.db.leases[t].pid, w.db.leases[t].pidStart)
    ensures PastStarts(After(w, events))
    ensures !PidMatches(After(w, events).procs, w.db.leases[t].pid, w.db.leases[t].pidStart)
  {
    DeadIdentity(w, events, w.db.leases[t].pid, w.db.leases[t].pidStart);
  }

  lemma {:induction false} DeadIdentity(w: World, events: seq<Event>, pid: Option<Pid>, start: Option<int>)
    requires PastStarts(w) && !PidMatches(w.procs, pid, start) && (start.Some? ==> start.value < w.ticks)
    ensures PastStarts(After(w, events)) && !PidMatches(After(w, events).procs, pid, start)
    decreases |events|
  {
    if events != [] {
      EventPast(w, events[0]);
      DeadIdentity(Next(w, events[0]), events[1..], pid, start);
    }
  }

  lemma StepKeepsLiveLease(db: Tables, op: Op, procs: Procs, t: TaskId)
    requires Consistent(db) && Holding(db, t) && Honest(op, procs)
    requires PidMatches(procs, db.leases[t].pid, db.leases[t].pidStart)
    ensures Holding(Step(db, op), t) && Step(db, op).leases[t] == db.leases[t]
  {
    assert Shaped(db, t);
    if op.Allocate? {
      AllocateKeepsLease(db, op, t);
    }
  }

  lemma {:induction false} RunKeepsLiveLease(db: Tables, ops: seq<Op>, procs: Procs, t: TaskId)
    requires Consistent(db) && Holding(db, t) && AllHonest(ops, procs)
    requires PidMatches(procs, db.leases[t].pid, db.leases[t].pidStart)
    ensures Holding(Run(db, ops), t) && Run(db, ops).leases[t] == db.leases[t]
    decreases |ops|
  {
    if ops != [] {
      assert ops[0] in ops;
      StepKeeps(db, ops[0]);
      StepKeepsLiveLease(db, ops[0], procs, t);
      RunKeepsLiveLease(Step(db, ops[0]), ops[1..], procs, t);
    }
  }

  /** While the recorded process lives, its lease and its GPUs are changed by nothing but its own
      supervisor's hand-over and a finish that carries its exact identity. */
  lemma LiveLeaseSurvives(w: World, e: Event, t: TaskId)
    requires Inv(w) && Holding(w.db, t)
    requires PidMatches(w.procs, w.db.leases[t].pid, w.db.leases[t].pidStart)
    requires t !in Next(w, e).db.leases || Next(w, e).db.leases[t] != w.db.leases[t]
    ensures var lease := w.db.leases[t];
            || (e.Binds? && e.t == t && lease.pid == Some(e.supervisor))
            || (e.Finishes? && e.t == t && e.pid == lease.pid && e.start == lease.pidStart)
  {
    if !e.Binds? && !e.Finishes? {
      var ops := SectionIsRun(w.db, w.procs, e);
      RunKeepsLiveLease(w.db, ops, w.procs, t);
      assert false;
    }
  }
}

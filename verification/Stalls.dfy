/** One request can keep everybody waiting: an unbounded one that needs more than the host has makes every
    plan refused, and at the head of a strict queue a bounded one lets nobody pass. */
module Stalls {
  import opened Prelude
  import opened Planner
  import opened PlannerTheorems
  import opened PlannerOptimality
  import opened StoreSpec
  import opened StateStores
  import opened StoreInvariant
  import opened Coordination
  import opened Protocol
  import opened Scheduling
  import opened Drain

  // ---- One schedule step ----------------------------------------------------------------------

  /** In strict order nothing starts behind a head that does not fit. */
  lemma StrictHeadBlocksPlan(inp: Input)
    requires Plan(inp).Ok? && Distinct(Ids(inp.waiting)) && inp.strictFifo
    requires inp.waiting != [] && Queue(inp.waiting) != [] && Queue(inp.waiting)[0].minGpus > |inp.free|
    ensures Plan(inp).value == []
  {
    if Alone(inp) {
      if inp.free != [] {
        SoloStartsExactly(inp);
        QueueFacts(inp.waiting);
        assert Queue(inp.waiting)[0] in Queue(inp.waiting);
      }
    } else {
      PlanCount(inp);
      StrictCount(Mins(Queue(inp.waiting)), |inp.free|);
    }
  }

  /** A waiting task that no plan accepts, or that heads the queue. */
  ghost predicate Blocker(db: Tables, t: TaskId) {
    t in QueuedTasks(db) && (db.tasks[t].maxGpus.None? || IsHead(db, t))
  }

  lemma SeenHead(db: Tables, env: Env, cfg: Settings, t: TaskId)
    requires Consistent(db) && ViewLocked(db, env, cfg).Ok? && IsHead(db, t)
    ensures var inp := SeenInput(db, env, cfg);
            && inp.waiting != [] && Distinct(Ids(inp.waiting))
            && Queue(inp.waiting) != [] && Queue(inp.waiting)[0] == RequestOf(db, t)
  {
    var seen := ViewLocked(db, env, cfg).value.0;
    ViewKeepsQueue(db, env, cfg);
    WaitingLists(seen);
    assert RequestOf(seen, t) in Waiting(seen);
    HeadOfQueue(seen, Waiting(seen));
    assert IsHead(seen, t);
  }

  lemma FreeAtMostAll(db: Tables, env: Env, cfg: Settings)
    requires ViewLocked(db, env, cfg).Ok?
    ensures |SeenInput(db, env, cfg).free| <= |env.snapshot.value.gpus|
  {
    var (seen, view) := ViewLocked(db, env, cfg).value;
    UntakenMembers(env.snapshot.value.gpus, ActiveGpus(seen) + view.external);
  }

  /** A schedule step past a blocker that needs more than the host has grants no lease. */
  lemma ScheduleStalls(db: Tables, env: Env, cfg: Settings, t: TaskId, next: Tables)
    requires Consistent(db) && Inside(db) && Blocker(db, t) && next == ScheduleLocked(db, env, cfg).0
    requires env.snapshot.Some? ==> |env.snapshot.value.gpus| < db.tasks[t].minGpus
    requires db.tasks[t].maxGpus.None? || cfg.strict
    ensures next.leases.Keys == db.leases.Keys && t in next.tasks && next.tasks[t] == db.tasks[t]
  {
    if ViewLocked(db, env, cfg).Ok? {
      var seen := ViewLocked(db, env, cfg).value.0;
      ViewKeepsQueue(db, env, cfg);
      StalledPlan(db, env, cfg, t);
      StepFromView(db, env, cfg, seen, next, t);
    }
  }

  lemma StepFromView(db: Tables, env: Env, cfg: Settings, seen: Tables, next: Tables, t: TaskId)
    requires Consistent(db) && Inside(db) && ViewLocked(db, env, cfg).Ok? && t in seen.tasks
    requires seen == ViewLocked(db, env, cfg).value.0 && next == ScheduleLocked(db, env, cfg).0
    requires Plan(SeenInput(db, env, cfg)).Err? || Plan(SeenInput(db, env, cfg)).value == []
    ensures next.leases.Keys == seen.leases.Keys && t in next.tasks && next.tasks[t] == seen.tasks[t]
  {
    ScheduleRefinesPlan(db, env, cfg);
    if Plan(SeenInput(db, env, cfg)).Ok? {
      NothingPlaced(seen, next, env.now, t);
    }
  }

  lemma StalledPlan(db: Tables, env: Env, cfg: Settings, t: TaskId)
    requires Consistent(db) && Inside(db) && Blocker(db, t) && ViewLocked(db, env, cfg).Ok?
    requires |env.snapshot.value.gpus| < db.tasks[t].minGpus && (db.tasks[t].maxGpus.None? || cfg.strict)
    ensures Plan(SeenInput(db, env, cfg)).Err? || Plan(SeenInput(db, env, cfg)).value == []
  {
    if db.tasks[t].maxGpus.None? {
      SeenInputPlausible(db, env, cfg);
      PlanAcceptedExactly(SeenInput(db, env, cfg));
      assert !WellSized(RequestOf(db, t), |env.snapshot.value.gpus|);
    } else if Plan(SeenInput(db, env, cfg)).Ok? {
      SeenHead(db, env, cfg, t);
      FreeAtMostAll(db, env, cfg);
      StrictHeadBlocksPlan(SeenInput(db, env, cfg));
    }
  }

  lemma NothingPlaced(seen: Tables, next: Tables, now: int, t: TaskId)
    requires Placed(seen, next, [], now) && t in seen.tasks
    ensures next.leases.Keys == seen.leases.Keys && t in next.tasks && next.tasks[t] == seen.tasks[t]
  {
    forall u ensures u in next.leases <==> u in seen.leases {
      assert !Named([], u);
      assert Untouched(seen, next, u);
    }
    assert !Named([], t);
    assert Untouched(seen, next, t);
  }

  // ---- Any event ------------------------------------------------------------------------------

  /** The event neither cancels, withdraws nor finishes the task. */
  predicate Spares(e: Event, t: TaskId) {
    match e
    case Withdraws(u, _) => u != t
    case TimesOut(u, _) => u != t
    case Cancels(u, _, _) => u != t
    case Finishes(u, _, _, _, _, _) => u != t
    case _ => true
  }

  predicate Schedules(e: Event) {
    e.Enters? || e.Polls?
  }

  function ArrivalRequest(e: Event): Request
    requires Arrives(e)
  {
    Request(e.a.t, e.a.minGpus, e.a.maxGpus, e.a.priority, e.now)
  }

  /** What other sessions do while the blocker waits: they spare it, none finds a host large enough for it,
      and, unless it is unbounded, they schedule in strict order and their requests queue behind it. */
  ghost predicate KeepsWaiting(db: Tables, t: TaskId, e: Event)
    requires t in db.tasks
  {
    && Spares(e, t)
    && (Schedules(e) && e.snapshot.Some? ==> |e.snapshot.value.gpus| < db.tasks[t].minGpus)
    && (db.tasks[t].maxGpus.None?
        || ((Schedules(e) ==> e.cfg.strict) && (Arrives(e) ==> Precedes(RequestOf(db, t), ArrivalRequest(e)))))
  }

  lemma QuietKeepsLeases(db: Tables, op: Op, t: TaskId)
    requires Consistent(db) && !op.Allocate? && t in QueuedTasks(db)
    requires !((op.Finish? || op.Cancel?) && op.t == t)
    ensures Step(db, op).leases.Keys == db.leases.Keys
    ensures t in Step(db, op).tasks && Step(db, op).tasks[t] == db.tasks[t]
  {
    assert Shaped(db, t);
  }

  lemma TurnStalls(db: Tables, t: TaskId, u: TaskId, self: Pid, env: Env, cfg: Settings)
    requires Consistent(db) && Inside(db) && Blocker(db, t)
    requires env.snapshot.Some? ==> |env.snapshot.value.gpus| < db.tasks[t].minGpus
    requires db.tasks[t].maxGpus.None? || cfg.strict
    ensures var next := ScheduleAndClaim(db, u, self, env, cfg).0;
            next.leases.Keys == db.leases.Keys && t in next.tasks && next.tasks[t] == db.tasks[t]
  {
    var result := ScheduleLocked(db, env, cfg);
    ScheduleStalls(db, env, cfg, t, result.0);
    TurnClaims(db, u, self, env, cfg, result);
    var ops := ScheduleIsRun(db, env, cfg);
    RunKeeps(db, ops);
    QuietKeepsLeases(result.0, Claim(u, self, env.procs, env.now), t);
  }

  lemma HeadBeforeArrival(db: Tables, t: TaskId, op: Op)
    requires Consistent(db) && IsHead(db, t) && op.Add?
    requires Precedes(RequestOf(db, t), Request(op.t, op.minGpus, op.maxGpus, op.priority, op.now))
    ensures IsHead(Step(db, op), t)
  {
    var next := Step(db, op);
    forall u | u in QueuedTasks(next) ensures Precedes(RequestOf(next, t), RequestOf(next, u)) {
      assert u == op.t || u in QueuedTasks(db);
    }
  }

  lemma EnterStalls(w: World, e: Event, t: TaskId)
    requires Inv(w) && e.Enters? && Blocker(w.db, t) && KeepsWaiting(w.db, t, e)
    ensures Next(w, e).db.leases.Keys == w.db.leases.Keys
    ensures t in Next(w, e).db.tasks && Next(w, e).db.tasks[t] == w.db.tasks[t]
  {
    var op := Add(e.a.t, e.a.minGpus, e.a.maxGpus, e.a.priority, e.now, e.a.argvGiven, e.a.cwdExists);
    if Apply(w.db, op).Ok? {
      StepKeeps(w.db, op);
      StepKeepsInside(w.db, op);
      if IsHead(w.db, t) && w.db.tasks[t].maxGpus.Some? {
        HeadBeforeArrival(w.db, t, op);
      }
      TurnStalls(Step(w.db, op), t, e.a.t, e.self, Env(e.snapshot, w.procs, e.now), e.cfg);
    }
  }

  lemma CancelStalls(db: Tables, t: TaskId, u: TaskId, delivered: bool, procs: Procs, now: int)
    requires Consistent(db) && t in QueuedTasks(db) && u != t && CancelTask(db, u, delivered, procs, now).Ok?
    ensures var next := CancelTask(db, u, delivered, procs, now).value;
            next.leases.Keys == db.leases.Keys && t in next.tasks && next.tasks[t] == db.tasks[t]
  {
    var cancel, recover := Cancel(u, now), Recover(now, LAUNCH_TIMEOUT, procs);
    QuietKeepsLeases(db, cancel, t);
    StepKeeps(db, cancel);
    QuietKeepsLeases(Step(db, cancel), recover, t);
  }

  /** No event grants a lease or moves the blocker. */
  lemma EventGrantsNothing(w: World, e: Event, t: TaskId)
    requires Inv(w) && Blocker(w.db, t) && KeepsWaiting(w.db, t, e)
    ensures Next(w, e).db.leases.Keys == w.db.leases.Keys
    ensures t in Next(w, e).db.tasks && Next(w, e).db.tasks[t] == w.db.tasks[t]
  {
    match e
    case Enqueues(a, now) =>
      QuietKeepsLeases(w.db, Add(a.t, a.minGpus, a.maxGpus, a.priority, now, a.argvGiven, a.cwdExists), t);
    case Enters(_, _, _, _, _) => EnterStalls(w, e, t);
    case Polls(u, self, snapshot, cfg, now) =>
      if u in w.db.tasks && !Terminal(w.db.tasks[u].status) {
        TurnStalls(w.db, t, u, self, Env(snapshot, w.procs, now), cfg);
      }
    case Withdraws(u, now) => QuietKeepsLeases(w.db, Cancel(u, now), t);
    case TimesOut(u, now) => QuietKeepsLeases(w.db, Cancel(u, now), t);
    case Binds(u, supervisor, child) =>
      QuietKeepsLeases(w.db, Bind(u, supervisor, child, StartTime(w.procs, child)), t);
    case Finishes(u, pid, start, code, error, now) =>
      QuietKeepsLeases(w.db, Finish(u, pid, start, code, error, now), t);
    case Cancels(u, delivered, now) =>
      if CancelTask(w.db, u, delivered, w.procs, now).Ok? {
        CancelStalls(w.db, t, u, delivered, w.procs, now);
      }
    case Collects(cfg, now) => QuietKeepsLeases(w.db, Recover(now, cfg.timeout, w.procs), t);
    case Looks(snapshot, cfg, now) => LookStalls(w.db, t, Env(snapshot, w.procs, now), cfg);
    case Starts(_) =>
    case Exits(_) =>
  }

  lemma LookStalls(db: Tables, t: TaskId, env: Env, cfg: Settings)
    requires Consistent(db) && t in QueuedTasks(db)
    ensures ViewLocked(db, env, cfg).Ok? ==>
              var next := ViewLocked(db, env, cfg).value.0;
              next.leases.Keys == db.leases.Keys && t in next.tasks && next.tasks[t] == db.tasks[t]
  {
    QuietKeepsLeases(db, Recover(env.now, cfg.timeout, env.procs), t);
  }

  /** Whoever waits after an event waited before, or has just arrived. */
  lemma QueueAfter(w: World, e: Event, u: TaskId)
    requires Inv(w) && u in QueuedTasks(Next(w, e).db)
    ensures || (u in QueuedTasks(w.db) && RequestOf(Next(w, e).db, u) == RequestOf(w.db, u))
            || (Arrives(e) && RequestOf(Next(w, e).db, u) == ArrivalRequest(e))
  {
    EventKeeps(w, e);
    if u in w.db.tasks {
      assert TaskEvolves(w.db.tasks[u], Next(w, e).db.tasks[u]);
    } else if e.Enters? {
      QueueAfterEntry(w, e, u);
    } else if !Arrives(e) {
      SectionKeepsKeys(w.db, w.procs, e);
    }
  }

  lemma QueueAfterEntry(w: World, e: Event, u: TaskId)
    requires Inv(w) && e.Enters? && u !in w.db.tasks && u in Next(w, e).db.tasks
    ensures RequestOf(Next(w, e).db, u) == ArrivalRequest(e)
  {
    var op := Add(e.a.t, e.a.minGpus, e.a.maxGpus, e.a.priority, e.now, e.a.argvGiven, e.a.cwdExists);
    if Apply(w.db, op).Ok? {
      var env := Env(e.snapshot, w.procs, e.now);
      var added := Step(w.db, op);
      StepKeeps(w.db, op);
      TurnOutline(added, e.a.t, e.self, env, e.cfg);
      var ops := TurnIsRun(added, e.a.t, e.self, env, e.cfg);
      RunKeeps(added, ops);
      assert TaskEvolves(added.tasks[u], Next(w, e).db.tasks[u]);
    }
  }

  lemma BlockerStays(w: World, e: Event, t: TaskId)
    requires Inv(w) && Blocker(w.db, t) && KeepsWaiting(w.db, t, e)
    ensures Blocker(Next(w, e).db, t)
  {
    EventGrantsNothing(w, e, t);
    if w.db.tasks[t].maxGpus.Some? {
      forall u | u in QueuedTasks(Next(w, e).db)
        ensures Precedes(RequestOf(Next(w, e).db, t), RequestOf(Next(w, e).db, u))
      {
        QueueAfter(w, e, u);
      }
    }
  }

  // ---- Whole runs -----------------------------------------------------------------------------

  /** From then on nobody is launched: over any run that spares the blocker and never finds a larger host,
      whatever else sessions and processes do, no task gets a lease, and the blocker waits as before. An
      unbounded blocker does this in either mode; a bounded one at the head of a strict queue, as long as
      nobody is let in ahead of it. */
  lemma {:induction false} NobodyIsLaunched(w: World, events: seq<Event>, t: TaskId)
    requires Inv(w) && Blocker(w.db, t)
    requires forall e :: e in events ==> KeepsWaiting(w.db, t, e)
    ensures Blocker(After(w, events).db, t) && After(w, events).db.tasks[t] == w.db.tasks[t]
    ensures After(w, events).db.leases.Keys == w.db.leases.Keys
    decreases |events|
  {
    if events != [] {
      var next := Next(w, events[0]);
      assert events[0] in events;
      EventKeeps(w, events[0]);
      EventGrantsNothing(w, events[0], t);
      BlockerStays(w, events[0], t);
      forall e | e in events[1..] ensures KeepsWaiting(next.db, t, e) {
        assert e in events;
      }
      NobodyIsLaunched(next, events[1..], t);
    }
  }

  // ---- An input -------------------------------------------------------------------------------

  const FOUR_GPUS := Env(Some(Snapshot([1, 2, 3, 4], {})), map[], 0)

  /** On an empty host of four GPUs a request for at least five without a maximum is admitted, and its own
      invocation fails with an error that does not withdraw it: the blocker is in the queue. */
  lemma OversizedRequestIsAdmitted(self: Pid)
    ensures var (next, reply) :=
              Enter(EMPTY, Arrival(1, 5, None, 0, true, true), self, FOUR_GPUS, Settings(1, false, 0));
            && reply.Refused? && reply.error.PlanRefused? && !Expected(reply.error)
            && Blocker(next, 1) && next.tasks[1].minGpus == 5
  {
    var a, cfg := Arrival(1, 5, None, 0, true, true), Settings(1, false, 0);
    var op := Add(1, 5, None, 0, 0, true, true);
    var added := Step(EMPTY, op);
    StepKeeps(EMPTY, op);
    StepKeepsInside(EMPTY, op);
    assert 1 in QueuedTasks(added) && !WellSized(RequestOf(added, 1), 4);
    ViewSucceedsExactly(added, FOUR_GPUS, cfg);
    ScheduleSucceedsExactly(added, FOUR_GPUS, cfg);
    ScheduleRefinesPlan(added, FOUR_GPUS, cfg);
    ScheduleStalls(added, FOUR_GPUS, cfg, 1, ScheduleLocked(added, FOUR_GPUS, cfg).0);
    TurnClaims(added, 1, self, FOUR_GPUS, cfg, ScheduleLocked(added, FOUR_GPUS, cfg));
  }
}

/** A closed system drains: without arrivals every run makes boundedly much progress, and service can
    continue until nothing is leased and at most one waiter, too large for the solo budget, is left. */
module Drain {
  import opened Prelude
  import opened Planner
  import opened PlannerTheorems
  import opened PlannerOptimality
  import opened StoreSpec
  import opened StateStores
  import opened StoreInvariant
  import opened Coordination
  import opened Protocol
  import opened Scheduling

  // ---- Progress -----------------------------------------------------------------------------

  /** The stages still ahead of each task. */
  ghost function Ahead(db: Tables): set<(TaskId, int)> {
    set t, l | t in db.tasks.Keys && l in {0, 1, 2, 3} && Rank(db.tasks[t].status) <= l :: (t, l)
  }

  ghost predicate Advances(db: Tables, next: Tables) {
    exists t :: t in db.tasks && t in next.tasks && Rank(db.tasks[t].status) < Rank(next.tasks[t].status)
  }

  lemma {:induction false} AheadAtMost(db: Tables)
    ensures |Ahead(db)| <= 4 * |db.tasks|
  {
    var all := set t, l | t in db.tasks.Keys && l in {0, 1, 2, 3} :: (t, l);
    StagesCount(db.tasks.Keys);
    assert Ahead(db) <= all;
    SubsetSize(Ahead(db), all);
  }

  lemma {:induction false} StagesCount(keys: set<TaskId>)
    ensures |set t, l | t in keys && l in {0, 1, 2, 3} :: (t, l)| == 4 * |keys|
  {
    var all := set t, l | t in keys && l in {0, 1, 2, 3} :: (t, l);
    if keys == {} {
      assert all == {};
    } else {
      SomeTask(keys);
      var k :| k in keys;
      var rest := keys - {k};
      StagesCount(rest);
      var others := set t, l | t in rest && l in {0, 1, 2, 3} :: (t, l);
      assert all == others + {(k, 0), (k, 1), (k, 2), (k, 3)};
      assert others !! {(k, 0), (k, 1), (k, 2), (k, 3)};
    }
  }

  lemma AdvanceShrinks(db: Tables, next: Tables)
    requires Evolves(db, next) && next.tasks.Keys == db.tasks.Keys
    ensures |Ahead(next)| <= |Ahead(db)|
    ensures Advances(db, next) ==> |Ahead(next)| < |Ahead(db)|
  {
    forall t, l | (t, l) in Ahead(next) ensures (t, l) in Ahead(db) {
      assert TaskEvolves(db.tasks[t], next.tasks[t]);
    }
    SubsetSize(Ahead(next), Ahead(db));
    if Advances(db, next) {
      var t :| t in db.tasks && t in next.tasks && Rank(db.tasks[t].status) < Rank(next.tasks[t].status);
      assert (t, Rank(db.tasks[t].status)) in Ahead(db);
      assert (t, Rank(db.tasks[t].status)) !in Ahead(next);
    }
  }

  predicate Arrives(e: Event) {
    e.Enqueues? || e.Enters?
  }

  lemma {:induction false} InsertAllKeepsKeys(db: Tables, allocs: seq<Allocation>, now: int)
    requires (forall a :: a in allocs ==> a.id in db.tasks) && InsertAll(db, allocs, now).Ok?
    ensures InsertAll(db, allocs, now).value.tasks.Keys == db.tasks.Keys
    decreases |allocs|
  {
    if allocs != [] {
      InsertAllKeepsKeys(InsertLease(db, allocs[0], now).value, allocs[1..], now);
    }
  }

  lemma AllocateOutline(db: Tables, free: seq<GpuId>, total: int, external: int, reserve: int, strict: bool, now: int)
    requires AllocateBatch(db, free, total, external, reserve, strict, now).Ok?
    ensures var next := AllocateBatch(db, free, total, external, reserve, strict, now).value;
            next.signature == db.signature && next.tasks.Keys == db.tasks.Keys
  {
    var allocs := Plan(PlanInput(db, free, total, external, reserve, strict)).value;
    InsertAllKeepsSignature(db, allocs, now);
    InsertAllKeepsKeys(db, allocs, now);
  }

  lemma ClaimOutline(db: Tables, t: TaskId, self: Pid, procs: Procs, now: int)
    ensures var next := Step(db, Claim(t, self, procs, now));
            next.signature == db.signature && next.tasks.Keys == db.tasks.Keys
  {
  }

  ghost predicate SignatureFits(db: Tables, gpus: seq<GpuId>) {
    db.signature.Some? ==> db.signature.value == Members(gpus)
  }

  lemma ScheduleOutline(db: Tables, env: Env, cfg: Settings)
    ensures ScheduleLocked(db, env, cfg).0.tasks.Keys == db.tasks.Keys
    ensures env.snapshot.Some? && SignatureFits(db, env.snapshot.value.gpus) ==>
              SignatureFits(ScheduleLocked(db, env, cfg).0, env.snapshot.value.gpus)
  {
    if ViewLocked(db, env, cfg).Ok? {
      var (seen, view) := ViewLocked(db, env, cfg).value;
      var total, external := |env.snapshot.value.gpus|, |view.external|;
      if AllocateBatch(seen, view.free, total, external, cfg.reserve, cfg.strict, env.now).Ok? {
        AllocateOutline(seen, view.free, total, external, cfg.reserve, cfg.strict, env.now);
      }
      ScheduleFromView(db, env, cfg, seen, view);
    }
  }

  lemma TurnOutline(db: Tables, t: TaskId, self: Pid, env: Env, cfg: Settings)
    ensures ScheduleAndClaim(db, t, self, env, cfg).0.tasks.Keys == db.tasks.Keys
    ensures env.snapshot.Some? && SignatureFits(db, env.snapshot.value.gpus) ==>
              SignatureFits(ScheduleAndClaim(db, t, self, env, cfg).0, env.snapshot.value.gpus)
  {
    ScheduleOutline(db, env, cfg);
    TurnClaims(db, t, self, env, cfg, ScheduleLocked(db, env, cfg));
    ClaimOutline(ScheduleLocked(db, env, cfg).0, t, self, env.procs, env.now);
  }

  lemma CancelOutline(db: Tables, t: TaskId, delivered: bool, procs: Procs, now: int)
    ensures CancelTask(db, t, delivered, procs, now).Ok? ==>
              CancelTask(db, t, delivered, procs, now).value.tasks.Keys == db.tasks.Keys
    ensures CleanUp(db, t, now).tasks.Keys == db.tasks.Keys
  {
  }

  lemma LooksOutline(db: Tables, env: Env, cfg: Settings)
    ensures RecoverStale(db, env.now, cfg.timeout, env.procs).tasks.Keys == db.tasks.Keys
    ensures ViewLocked(db, env, cfg).Ok? ==> ViewLocked(db, env, cfg).value.0.tasks.Keys == db.tasks.Keys
  {
  }

  lemma SectionKeepsKeys(db: Tables, procs: Procs, e: Event)
    requires !Arrives(e)
    ensures SectionDb(db, procs, e).tasks.Keys == db.tasks.Keys
  {
    match e
    case Polls(t, self, snapshot, cfg, now) => TurnOutline(db, t, self, Env(snapshot, procs, now), cfg);
    case Withdraws(t, now) => CancelOutline(db, t, false, procs, now);
    case Cancels(t, delivered, now) => CancelOutline(db, t, delivered, procs, now);
    case Collects(cfg, now) => LooksOutline(db, Env(None, procs, now), cfg);
    case Looks(snapshot, cfg, now) => LooksOutline(db, Env(snapshot, procs, now), cfg);
    case _ =>
  }

  /** How many events of a run move some task to a later stage. */
  ghost function AdvanceCount(w: World, events: seq<Event>): nat
    decreases |events|
  {
    if events == [] then 0
    else (if Advances(w.db, Next(w, events[0]).db) then 1 else 0) + AdvanceCount(Next(w, events[0]), events[1..])
  }

  /** Without arrivals a run can advance tasks at most four times per task, however long it is and
      whatever else happens in it. */
  lemma {:induction false} ProgressIsBounded(w: World, events: seq<Event>)
    requires Inv(w) && forall e :: e in events ==> !Arrives(e)
    ensures AdvanceCount(w, events) + |Ahead(After(w, events).db)| <= |Ahead(w.db)| <= 4 * |w.db.tasks|
    decreases |events|
  {
    AheadAtMost(w.db);
    if events != [] {
      var next := Next(w, events[0]);
      assert events[0] in events;
      EventKeeps(w, events[0]);
      SectionKeepsKeys(w.db, w.procs, events[0]);
      AdvanceShrinks(w.db, next.db);
      ProgressIsBounded(next, events[1..]);
    }
  }

  // ---- An idle host -------------------------------------------------------------------------

  /** One waiter that needs more than the solo budget. */
  ghost predicate OnlyOversized(db: Tables, total: int, reserve: int) {
    exists t :: QueuedTasks(db) == {t} && db.tasks[t].minGpus > total - Min(reserve, total - 1)
  }

  /** The request at the head of the queue needs more than the host has. */
  ghost predicate HeadTooLarge(db: Tables, total: int) {
    exists t :: IsHead(db, t) && db.tasks[t].minGpus > total
  }

  ghost predicate IsHead(db: Tables, t: TaskId) {
    t in QueuedTasks(db) && forall u :: u in QueuedTasks(db) ==> Precedes(RequestOf(db, t), RequestOf(db, u))
  }

  ghost predicate AllTooLarge(db: Tables, total: int) {
    forall t :: t in QueuedTasks(db) ==> db.tasks[t].minGpus > total
  }

  /** An idle host launches nothing for this queue although its plan is accepted. */
  ghost predicate NothingFits(db: Tables, total: int, reserve: int, strict: bool) {
    || QueuedTasks(db) == {} || OnlyOversized(db, total, reserve)
    || (|QueuedTasks(db)| >= 2 && if strict then HeadTooLarge(db, total) else AllTooLarge(db, total))
  }

  ghost predicate AllWellSized(db: Tables, total: int) {
    forall t :: t in QueuedTasks(db) ==> WellSized(RequestOf(db, t), total)
  }

  /** An idle host launches nothing: some request makes every plan refused, or none can start. */
  ghost predicate Blocked(db: Tables, total: int, reserve: int, strict: bool) {
    !AllWellSized(db, total) || NothingFits(db, total, reserve, strict)
  }

  ghost predicate SameHost(db: Tables, gpus: seq<GpuId>) {
    Distinct(gpus) && gpus != [] && SignatureFits(db, gpus)
  }

  ghost predicate AllFit(db: Tables, total: int) {
    forall t :: t in QueuedTasks(db) ==> db.tasks[t].minGpus <= total
  }

  lemma {:induction false} NothingTaken(gpus: seq<GpuId>)
    ensures Untaken(gpus, {}) == gpus
  {
    if gpus != [] {
      NothingTaken(gpus[1..]);
    }
  }

  lemma IdleView(db: Tables, env: Env, cfg: Settings, gpus: seq<GpuId>)
    requires SameHost(db, gpus) && ActiveTasks(db) == {} && env.snapshot == Some(Snapshot(gpus, {}))
    ensures ViewLocked(db, env, cfg) == Ok((db.(signature := Some(Members(gpus))), View({}, gpus)))
  {
    assert forall t :: Holding(db, t) ==> t in ActiveTasks(db);
    assert StaleTasks(db, env.now, cfg.timeout, env.procs) == {};
    RecoverNone(db, env.now);
    var seen := db.(signature := Some(Members(gpus)));
    assert ActiveGpus(seen) == {};
    NothingTaken(gpus);
    assert ActiveGpus(seen) + {} == {};
  }

  lemma IdlePlanInput(db: Tables, env: Env, cfg: Settings, gpus: seq<GpuId>)
    requires Consistent(db) && Inside(db) && SameHost(db, gpus) && ActiveTasks(db) == {}
    requires env.snapshot == Some(Snapshot(gpus, {}))
    ensures ViewLocked(db, env, cfg).Ok?
    ensures var inp := SeenInput(db, env, cfg);
            && inp.free == gpus && inp.total == |gpus| && inp.reserve == cfg.reserve && inp.strictFifo == cfg.strict
            && inp.activeJobs == 0 && inp.externalBusy == 0
            && |inp.waiting| == |QueuedTasks(db)| && Distinct(Ids(inp.waiting))
            && (forall r :: r in inp.waiting ==> r.id in QueuedTasks(db) && r == RequestOf(db, r.id))
            && (forall t :: t in QueuedTasks(db) ==> RequestOf(db, t) in inp.waiting)
  {
    IdleView(db, env, cfg, gpus);
    var seen := db.(signature := Some(Members(gpus)));
    assert QueuedTasks(seen) == QueuedTasks(db) && ActiveTasks(seen) == ActiveTasks(db);
    WaitingLists(seen);
    forall t | t in QueuedTasks(db) ensures RequestOf(db, t) in Waiting(seen) {
      assert RequestOf(seen, t) == RequestOf(db, t);
    }
  }

  /** The waiting list of a plan is the queue of the database. */
  ghost predicate Mirrors(db: Tables, waiting: seq<Request>) {
    && |waiting| == |QueuedTasks(db)| && Distinct(Ids(waiting))
    && (forall r :: r in waiting ==> r.id in QueuedTasks(db) && r == RequestOf(db, r.id))
    && (forall t :: t in QueuedTasks(db) ==> RequestOf(db, t) in waiting)
  }

  lemma SoloQueue(db: Tables, inp: Input, gpus: seq<GpuId>)
    requires Plan(inp).Ok? && Alone(inp) && inp.free == gpus && gpus != [] && inp.total == |gpus| && inp.reserve >= 0
    requires |QueuedTasks(db)| == 1 && Mirrors(db, inp.waiting)
    ensures Plan(inp).value == [] <==> OnlyOversized(db, |gpus|, inp.reserve)
  {
    var r := inp.waiting[0];
    assert r in inp.waiting;
    SoloStartsExactly(inp);
    assert QueuedTasks(db) == {r.id} by {
      SubsetSize({r.id}, QueuedTasks(db));
    }
  }

  /** The head of the planner's queue is the head of the database's. */
  lemma HeadOfQueue(db: Tables, waiting: seq<Request>)
    requires Mirrors(db, waiting) && waiting != []
    ensures Queue(waiting) != [] && IsHead(db, Queue(waiting)[0].id)
    ensures Queue(waiting)[0] == RequestOf(db, Queue(waiting)[0].id)
    ensures forall t :: IsHead(db, t) ==> t == Queue(waiting)[0].id
  {
    var q := Queue(waiting);
    QueueFacts(waiting);
    assert q[0] in q;
    forall u | u in QueuedTasks(db) ensures Precedes(q[0], RequestOf(db, u)) {
      assert RequestOf(db, u) in q;
      var i :| 0 <= i < |q| && q[i] == RequestOf(db, u);
    }
  }

  lemma {:induction false} NoneStartsExactly(mins: seq<int>, budget: int)
    ensures Count(Select(mins, budget, false)) == 0 <==> forall i :: 0 <= i < |mins| ==> mins[i] > budget
  {
    if mins != [] {
      if mins[0] > budget {
        NoneStartsExactly(mins[1..], budget);
        assert forall i :: 0 < i < |mins| ==> mins[i] == mins[1..][i - 1];
      }
    }
  }

  lemma CrowdedQueue(db: Tables, inp: Input)
    requires Plan(inp).Ok? && inp.free != [] && |inp.waiting| >= 2 && Mirrors(db, inp.waiting)
    ensures Plan(inp).value == []
            <==> if inp.strictFifo then HeadTooLarge(db, |inp.free|) else AllTooLarge(db, |inp.free|)
  {
    var q := Queue(inp.waiting);
    HeadOfQueue(db, inp.waiting);
    QueueFacts(inp.waiting);
    PlanCount(inp);
    if inp.strictFifo {
      StrictCount(Mins(q), |inp.free|);
    } else {
      NoneStartsExactly(Mins(q), |inp.free|);
      MinsTooLarge(db, inp.waiting, |inp.free|);
    }
  }

  lemma MinsTooLarge(db: Tables, waiting: seq<Request>, total: int)
    requires Mirrors(db, waiting)
    ensures AllTooLarge(db, total)
            <==> forall i :: 0 <= i < |Mins(Queue(waiting))| ==> Mins(Queue(waiting))[i] > total
  {
    var q := Queue(waiting);
    QueueFacts(waiting);
    if AllTooLarge(db, total) {
      forall i | 0 <= i < |Mins(q)| ensures Mins(q)[i] > total {
        assert q[i] in q;
      }
    }
    if forall i :: 0 <= i < |Mins(q)| ==> Mins(q)[i] > total {
      forall t | t in QueuedTasks(db) ensures db.tasks[t].minGpus > total {
        assert RequestOf(db, t) in q;
        var i :| 0 <= i < |q| && q[i] == RequestOf(db, t);
        assert Mins(q)[i] == db.tasks[t].minGpus;
      }
    }
  }

  /** On an idle host a schedule step is refused exactly when some request is not well sized; otherwise it
      launches nothing exactly when the queue is empty, holds one waiter above the solo budget, or holds
      several of which, in strict order, the head or, backfilling, every one needs more than the host has. */
  lemma IdlePlanExactly(db: Tables, env: Env, cfg: Settings, gpus: seq<GpuId>)
    requires Consistent(db) && Inside(db) && SameHost(db, gpus) && ActiveTasks(db) == {}
    requires env.snapshot == Some(Snapshot(gpus, {}))
    ensures ViewLocked(db, env, cfg).Ok?
    ensures Plan(SeenInput(db, env, cfg)).Ok? <==> AllWellSized(db, |gpus|)
    ensures Plan(SeenInput(db, env, cfg)).Ok? ==>
              (Plan(SeenInput(db, env, cfg)).value == [] <==> NothingFits(db, |gpus|, cfg.reserve, cfg.strict))
  {
    IdlePlanInput(db, env, cfg, gpus);
    var inp := SeenInput(db, env, cfg);
    SeenInputPlausible(db, env, cfg);
    PlanAcceptedExactly(inp);
    if Plan(inp).Ok? {
      IdleLaunchExactly(db, inp, gpus);
    }
  }

  lemma IdleLaunchExactly(db: Tables, inp: Input, gpus: seq<GpuId>)
    requires Plan(inp).Ok? && inp.free == gpus && gpus != [] && inp.total == |gpus| && inp.reserve >= 0
    requires inp.activeJobs == 0 && inp.externalBusy == 0 && Mirrors(db, inp.waiting)
    ensures Plan(inp).value == [] <==> NothingFits(db, |gpus|, inp.reserve, inp.strictFifo)
  {
    if |QueuedTasks(db)| == 1 {
      SoloQueue(db, inp, gpus);
    } else if |QueuedTasks(db)| >= 2 {
      CrowdedQueue(db, inp);
    } else {
      QueueFacts(inp.waiting);
    }
  }

  // ---- Service without arrivals, cancellations or strangers -----------------------------------

  predicate OwnFinish(db: Tables, t: TaskId, pid: Option<Pid>, start: Option<int>) {
    Holding(db, t) && pid.Some? && db.leases[t].pid == pid && db.leases[t].pidStart == start
  }

  /** How the sessions of a closed system schedule: their common reserve, and the modes in use. */
  datatype Rule = Rule(reserve: nat, modes: set<bool>) {
    predicate InUse() {
      true in modes || false in modes
    }
  }

  /** What sessions do in a closed system: poll on a host free of outside processes, hand over, finish
      what they own, look, collect; and processes come and go. */
  ghost predicate Service(w: World, e: Event, gpus: seq<GpuId>, rule: Rule) {
    match e
    case Polls(_, _, snapshot, cfg, now) =>
      && cfg.reserve == rule.reserve && cfg.strict in rule.modes && snapshot.Some? && snapshot.value.gpus == gpus
      && var view := ViewLocked(w.db, Env(snapshot, w.procs, now), cfg);
         view.Ok? ==> view.value.1.external == {}
    case Looks(snapshot, _, _) => snapshot.Some? && snapshot.value.gpus == gpus
    case Finishes(t, pid, start, _, _, _) => OwnFinish(w.db, t, pid, start)
    case Binds(_, _, _) => true
    case Collects(_, _) => true
    case Starts(_) => true
    case Exits(_) => true
    case _ => false
  }

  /** Nothing is leased, and no mode in use launches anything. */
  ghost predicate Stuck(db: Tables, total: int, rule: Rule) {
    ActiveTasks(db) == {} && forall strict :: strict in rule.modes ==> Blocked(db, total, rule.reserve, strict)
  }

  ghost predicate Drained(db: Tables, total: int, reserve: int) {
    ActiveTasks(db) == {} && (QueuedTasks(db) == {} || OnlyOversized(db, total, reserve))
  }

  /** Where every minimum fits the host, being stuck is being drained, in strict and in backfill mode. */
  lemma StuckIsDrained(db: Tables, total: int, rule: Rule)
    requires Consistent(db) && AllFit(db, total) && rule.InUse()
    ensures Stuck(db, total, rule) <==> Drained(db, total, rule.reserve)
  {
    forall t | t in QueuedTasks(db) ensures WellSized(RequestOf(db, t), total) {
      assert Sized(db, t);
    }
    forall strict ensures Blocked(db, total, rule.reserve, strict)
                          <==> QueuedTasks(db) == {} || OnlyOversized(db, total, rule.reserve)
    {
      if QueuedTasks(db) != {} {
        SomeTask(QueuedTasks(db));
      }
    }
    var mode := true in rule.modes;
    assert Blocked(db, total, rule.reserve, mode)
           <==> QueuedTasks(db) == {} || OnlyOversized(db, total, rule.reserve);
  }

  ghost predicate SameRanks(db: Tables, next: Tables) {
    forall t :: t in db.tasks && t in next.tasks ==> Rank(next.tasks[t].status) == Rank(db.tasks[t].status)
  }

  lemma NobodyHolds(db: Tables, t: TaskId)
    requires Consistent(db) && ActiveTasks(db) == {}
    ensures !Holding(db, t)
    ensures t in db.tasks ==> db.tasks[t].status == Queued || Terminal(db.tasks[t].status)
  {
    assert t !in ActiveTasks(db);
    if t in db.tasks {
      assert Shaped(db, t);
    }
  }

  lemma IdleScheduleStill(db: Tables, env: Env, cfg: Settings, gpus: seq<GpuId>, t: TaskId)
    requires Consistent(db) && Inside(db) && SameHost(db, gpus) && ActiveTasks(db) == {}
    requires Blocked(db, |gpus|, cfg.reserve, cfg.strict) && env.snapshot == Some(Snapshot(gpus, {}))
    requires t in db.tasks
    ensures var next := ScheduleLocked(db, env, cfg).0;
            t in next.tasks && next.tasks[t] == db.tasks[t]
  {
    IdlePlanExactly(db, env, cfg, gpus);
    IdleView(db, env, cfg, gpus);
    ScheduleRefinesPlan(db, env, cfg);
    if AllWellSized(db, |gpus|) {
      assert !Named([], t);
      assert Untouched(ViewLocked(db, env, cfg).value.0, ScheduleLocked(db, env, cfg).0, t);
    }
  }

  lemma StuckPollStill(w: World, e: Event, gpus: seq<GpuId>, rule: Rule)
    requires Inv(w) && SameHost(w.db, gpus) && Stuck(w.db, |gpus|, rule)
    requires e.Polls? && Service(w, e, gpus, rule)
    ensures SameRanks(w.db, Next(w, e).db)
  {
    var env := Env(e.snapshot, w.procs, e.now);
    NobodyHolds(w.db, e.t);
    if e.t in w.db.tasks && !Terminal(w.db.tasks[e.t].status) {
      IdleViewQuiet(w.db, env, e.cfg, gpus);
      var result := ScheduleLocked(w.db, env, e.cfg);
      forall t | t in w.db.tasks ensures t in result.0.tasks && result.0.tasks[t] == w.db.tasks[t] {
        IdleScheduleStill(w.db, env, e.cfg, gpus, t);
      }
    }
  }

  /** With nothing leased, a view without outsiders means that no GPU is busy at all. */
  lemma IdleViewQuiet(db: Tables, env: Env, cfg: Settings, gpus: seq<GpuId>)
    requires Consistent(db) && Inside(db) && SameHost(db, gpus) && ActiveTasks(db) == {}
    requires env.snapshot.Some? && env.snapshot.value.gpus == gpus
    requires var view := ViewLocked(db, env, cfg); view.Ok? ==> view.value.1.external == {}
    ensures env.snapshot == Some(Snapshot(gpus, {}))
  {
    ViewSucceedsExactly(db, env, cfg);
    var (seen, view) := ViewLocked(db, env, cfg).value;
    NothingStale(db, env.now, cfg.timeout, env.procs);
    assert forall t :: Holding(seen, t) ==> t in ActiveTasks(db);
    assert ActiveGpus(seen) == {};
    assert env.snapshot.value.busy == view.external;
  }

  /** A stuck system stays where it is, whatever service does. */
  lemma StuckIsStill(w: World, e: Event, gpus: seq<GpuId>, rule: Rule)
    requires Inv(w) && SameHost(w.db, gpus) && Stuck(w.db, |gpus|, rule) && Service(w, e, gpus, rule)
    ensures SameRanks(w.db, Next(w, e).db)
  {
    match e
    case Polls(_, _, _, _, _) => StuckPollStill(w, e, gpus, rule);
    case Finishes(t, _, _, _, _, _) => NobodyHolds(w.db, t);
    case Binds(t, _, _) => NobodyHolds(w.db, t);
    case Collects(cfg, now) => NothingStale(w.db, now, cfg.timeout, w.procs);
    case Looks(_, cfg, now) => NothingStale(w.db, now, cfg.timeout, w.procs);
    case _ =>
  }

  lemma NothingStale(db: Tables, now: int, timeout: int, procs: Procs)
    requires ActiveTasks(db) == {}
    ensures RecoverStale(db, now, timeout, procs) == db
  {
    assert forall t :: Holding(db, t) ==> t in ActiveTasks(db);
    assert StaleTasks(db, now, timeout, procs) == {};
    RecoverNone(db, now);
  }

  // ---- There is always a next step ------------------------------------------------------------

  lemma HostSchedules(db: Tables, env: Env, cfg: Settings, gpus: seq<GpuId>)
    requires Consistent(db) && Inside(db) && SameHost(db, gpus) && env.snapshot == Some(Snapshot(gpus, {}))
    ensures ViewLocked(db, env, cfg).Ok? && ViewLocked(db, env, cfg).value.1.external == {}
    ensures AllWellSized(db, |gpus|) ==> ScheduleLocked(db, env, cfg).1.None?
    ensures Consistent(ScheduleLocked(db, env, cfg).0) && Evolves(db, ScheduleLocked(db, env, cfg).0)
  {
    ScheduleSucceedsExactly(db, env, cfg);
    ViewSucceedsExactly(db, env, cfg);
    var ops := ScheduleIsRun(db, env, cfg);
    RunKeeps(db, ops);
  }

  lemma ClaimAdvances(db: Tables, t: TaskId, self: Pid, procs: Procs, now: int)
    requires Consistent(db) && t in db.tasks
    ensures var next := Step(db, Claim(t, self, procs, now));
            && t in next.tasks && Rank(next.tasks[t].status) >= Rank(db.tasks[t].status)
            && (db.tasks[t].status == Launching ==> next.tasks[t].status == Running)
  {
    assert Shaped(db, t);
  }

  lemma ClaimLaunched(db: Tables, mid: Tables, t: TaskId, self: Pid, procs: Procs, now: int)
    requires t in db.tasks && db.tasks[t].status == Launching && Evolves(db, mid) && Consistent(mid)
    ensures Advances(db, Step(mid, Claim(t, self, procs, now)))
  {
    assert TaskEvolves(db.tasks[t], mid.tasks[t]);
    ClaimAdvances(mid, t, self, procs, now);
  }

  /** A poll that schedules ends in a claim. */
  lemma PollStep(w: World, e: Event, env: Env)
    requires e.Polls? && e.t in w.db.tasks && !Terminal(w.db.tasks[e.t].status)
    requires env == Env(e.snapshot, w.procs, e.now) && ScheduleLocked(w.db, env, e.cfg).1.None?
    ensures Next(w, e).db == Step(ScheduleLocked(w.db, env, e.cfg).0, Claim(e.t, e.self, w.procs, e.now))
  {
    TurnClaims(w.db, e.t, e.self, env, e.cfg, ScheduleLocked(w.db, env, e.cfg));
  }

  lemma PollOnHost(w: World, e: Event, gpus: seq<GpuId>, env: Env, mid: Tables)
    requires Inv(w) && SameHost(w.db, gpus) && e.Polls? && e.t in w.db.tasks && !Terminal(w.db.tasks[e.t].status)
    requires e.snapshot == Some(Snapshot(gpus, {})) && env == Env(e.snapshot, w.procs, e.now)
    requires mid == ScheduleLocked(w.db, env, e.cfg).0 && AllWellSized(w.db, |gpus|)
    ensures Consistent(mid) && Evolves(w.db, mid)
    ensures Next(w, e).db == Step(mid, Claim(e.t, e.self, w.procs, e.now))
  {
    HostSchedules(w.db, env, e.cfg, gpus);
    PollStep(w, e, env);
  }

  /** Polling for a task that waits for its supervisor moves it on. */
  lemma PollLaunching(w: World, e: Event, gpus: seq<GpuId>, t: TaskId, env: Env, mid: Tables)
    requires Inv(w) && SameHost(w.db, gpus) && t in w.db.tasks && w.db.tasks[t].status == Launching
    requires e.Polls? && e.t == t && e.snapshot == Some(Snapshot(gpus, {})) && env == Env(e.snapshot, w.procs, e.now)
    requires mid == ScheduleLocked(w.db, env, e.cfg).0 && AllWellSized(w.db, |gpus|)
    ensures Advances(w.db, Next(w, e).db)
  {
    PollOnHost(w, e, gpus, env, mid);
    ClaimLaunched(w.db, mid, t, e.self, w.procs, e.now);
  }

  /** Polling on an idle host that is not blocked launches somebody. */
  lemma PollIdle(w: World, e: Event, gpus: seq<GpuId>, t: TaskId, mid: Tables)
    requires Inv(w) && SameHost(w.db, gpus) && ActiveTasks(w.db) == {} && t in QueuedTasks(w.db)
    requires e.Polls? && e.t == t && e.snapshot == Some(Snapshot(gpus, {}))
    requires !Blocked(w.db, |gpus|, e.cfg.reserve, e.cfg.strict)
    requires mid == ScheduleLocked(w.db, Env(e.snapshot, w.procs, e.now), e.cfg).0
    ensures Advances(w.db, Next(w, e).db)
  {
    var env := Env(e.snapshot, w.procs, e.now);
    HostSchedules(w.db, env, e.cfg, gpus);
    PollStep(w, e, env);
    var u := IdleLaunches(w.db, env, e.cfg, gpus);
    StepKeeps(mid, Claim(t, e.self, w.procs, e.now));
    assert TaskEvolves(mid.tasks[u], Next(w, e).db.tasks[u]);
  }

  lemma IdleLaunches(db: Tables, env: Env, cfg: Settings, gpus: seq<GpuId>) returns (u: TaskId)
    requires Consistent(db) && Inside(db) && SameHost(db, gpus) && ActiveTasks(db) == {}
    requires env.snapshot == Some(Snapshot(gpus, {})) && !Blocked(db, |gpus|, cfg.reserve, cfg.strict)
    ensures u in QueuedTasks(db) && u in ScheduleLocked(db, env, cfg).0.tasks
    ensures ScheduleLocked(db, env, cfg).0.tasks[u].status == Launching
  {
    IdlePlanExactly(db, env, cfg, gpus);
    ScheduleRefinesPlan(db, env, cfg);
    IdlePlanInput(db, env, cfg, gpus);
    var inp := SeenInput(db, env, cfg);
    PlanSound(inp);
    var first := Plan(inp).value[0];
    u := first.id;
    assert PlacedOne(ViewLocked(db, env, cfg).value.0, ScheduleLocked(db, env, cfg).0, first, env.now);
  }

  lemma FinishAdvances(w: World, t: TaskId, now: int) returns (e: Event)
    requires Inv(w) && Holding(w.db, t) && w.db.leases[t].pid.Some?
    ensures e == Finishes(t, w.db.leases[t].pid, w.db.leases[t].pidStart, 0, None, now)
    ensures Advances(w.db, Next(w, e).db)
  {
    e := Finishes(t, w.db.leases[t].pid, w.db.leases[t].pidStart, 0, None, now);
    assert Shaped(w.db, t);
    assert t in Next(w, e).db.tasks && Rank(w.db.tasks[t].status) < Rank(Next(w, e).db.tasks[t].status);
  }

  /** A launch that waits too long is collected. */
  lemma CollectLaunching(w: World, t: TaskId, rule: Rule) returns (e: Event)
    requires Inv(w) && Holding(w.db, t) && w.db.leases[t].pid.None?
    ensures e == Collects(Settings(rule.reserve, false, 0), w.db.leases[t].reservedAt)
    ensures Advances(w.db, Next(w, e).db)
  {
    e := Collects(Settings(rule.reserve, false, 0), w.db.leases[t].reservedAt);
    assert Shaped(w.db, t);
    assert t in Next(w, e).db.tasks && Rank(w.db.tasks[t].status) < Rank(Next(w, e).db.tasks[t].status);
  }

  /** A launched task is claimed by a poll in any mode in use, or collected when no poll gets that far. */
  lemma LaunchingCanAdvance(w: World, gpus: seq<GpuId>, rule: Rule, t: TaskId, self: Pid, now: int) returns (e: Event)
    requires Inv(w) && SameHost(w.db, gpus) && t in w.db.tasks && w.db.tasks[t].status == Launching
    ensures Service(w, e, gpus, rule) && Advances(w.db, Next(w, e).db)
  {
    assert Shaped(w.db, t);
    if AllWellSized(w.db, |gpus|) && exists strict :: strict in rule.modes {
      var strict :| strict in rule.modes;
      var cfg := Settings(rule.reserve, strict, 0);
      e := Polls(t, self, Some(Snapshot(gpus, {})), cfg, now);
      var env := Env(e.snapshot, w.procs, now);
      HostSchedules(w.db, env, cfg, gpus);
      PollLaunching(w, e, gpus, t, env, ScheduleLocked(w.db, env, cfg).0);
    } else {
      e := CollectLaunching(w, t, rule);
    }
  }

  /** Unless the system is stuck, some service step advances some task. */
  lemma ServiceCanAdvance(w: World, gpus: seq<GpuId>, rule: Rule, self: Pid, now: int) returns (e: Event)
    requires Inv(w) && SameHost(w.db, gpus) && !Stuck(w.db, |gpus|, rule)
    ensures Service(w, e, gpus, rule) && Advances(w.db, Next(w, e).db)
  {
    if ActiveTasks(w.db) != {} {
      SomeTask(ActiveTasks(w.db));
      var t :| t in ActiveTasks(w.db);
      assert Shaped(w.db, t);
      if w.db.tasks[t].status == Launching {
        e := LaunchingCanAdvance(w, gpus, rule, t, self, now);
      } else {
        e := FinishAdvances(w, t, now);
      }
    } else {
      var strict :| strict in rule.modes && !Blocked(w.db, |gpus|, rule.reserve, strict);
      SomeTask(QueuedTasks(w.db));
      var t :| t in QueuedTasks(w.db);
      var cfg := Settings(rule.reserve, strict, 0);
      e := Polls(t, self, Some(Snapshot(gpus, {})), cfg, now);
      HostSchedules(w.db, Env(e.snapshot, w.procs, now), cfg, gpus);
      PollIdle(w, e, gpus, t, ScheduleLocked(w.db, Env(e.snapshot, w.procs, now), cfg).0);
    }
  }

  /** Service cannot go on exactly when nothing is leased and, in every mode in use, the queue is blocked:
      by a request that no plan accepts, or because nothing that may start fits the host. */
  lemma StuckExactly(w: World, gpus: seq<GpuId>, rule: Rule)
    requires Inv(w) && SameHost(w.db, gpus)
    ensures (forall e :: Service(w, e, gpus, rule) ==> !Advances(w.db, Next(w, e).db))
            <==> Stuck(w.db, |gpus|, rule)
  {
    if Stuck(w.db, |gpus|, rule) {
      forall e | Service(w, e, gpus, rule) ensures !Advances(w.db, Next(w, e).db) {
        StuckIsStill(w, e, gpus, rule);
      }
    } else {
      var e := ServiceCanAdvance(w, gpus, rule, 1, 0);
    }
  }

  lemma ServiceSignature(w: World, e: Event, gpus: seq<GpuId>, rule: Rule)
    requires SignatureFits(w.db, gpus) && Service(w, e, gpus, rule)
    ensures SignatureFits(Next(w, e).db, gpus)
  {
    if e.Polls? {
      PollSignature(w, e, gpus);
    }
  }

  lemma PollSignature(w: World, e: Event, gpus: seq<GpuId>)
    requires SignatureFits(w.db, gpus) && e.Polls? && e.snapshot.Some? && e.snapshot.value.gpus == gpus
    ensures SignatureFits(Next(w, e).db, gpus)
  {
    TurnOutline(w.db, e.t, e.self, Env(e.snapshot, w.procs, e.now), e.cfg);
  }

  lemma ServiceKeepsHost(w: World, e: Event, gpus: seq<GpuId>, rule: Rule)
    requires Inv(w) && SameHost(w.db, gpus) && Service(w, e, gpus, rule)
    ensures Inv(Next(w, e)) && SameHost(Next(w, e).db, gpus)
    ensures Evolves(w.db, Next(w, e).db) && Next(w, e).db.tasks.Keys == w.db.tasks.Keys
    ensures AllFit(w.db, |gpus|) ==> AllFit(Next(w, e).db, |gpus|)
  {
    EventKeeps(w, e);
    SectionKeepsKeys(w.db, w.procs, e);
    ServiceSignature(w, e, gpus, rule);
    QueueShrinks(w.db, Next(w, e).db);
  }

  lemma QueueShrinks(db: Tables, next: Tables)
    requires Evolves(db, next) && next.tasks.Keys == db.tasks.Keys
    ensures forall t :: t in QueuedTasks(next) ==> t in QueuedTasks(db) && next.tasks[t].minGpus == db.tasks[t].minGpus
  {
    forall t | t in QueuedTasks(next)
      ensures t in QueuedTasks(db) && next.tasks[t].minGpus == db.tasks[t].minGpus
    {
      assert TaskEvolves(db.tasks[t], next.tasks[t]);
    }
  }

  ghost predicate AllService(w: World, events: seq<Event>, gpus: seq<GpuId>, rule: Rule)
    decreases |events|
  {
    events != [] ==> Service(w, events[0], gpus, rule) && AllService(Next(w, events[0]), events[1..], gpus, rule)
  }

  /** From every reachable state of a closed host, at most four service steps per task lead to where
      service is stuck; if every waiting minimum fits the host, the system is then drained. */
  lemma {:induction false} Drains(w: World, gpus: seq<GpuId>, rule: Rule, self: Pid, now: int)
    returns (events: seq<Event>)
    requires Inv(w) && SameHost(w.db, gpus)
    ensures AllService(w, events, gpus, rule) && |events| <= |Ahead(w.db)|
    ensures Stuck(After(w, events).db, |gpus|, rule)
    ensures AllFit(w.db, |gpus|) && rule.InUse() ==> Drained(After(w, events).db, |gpus|, rule.reserve)
    decreases |Ahead(w.db)|
  {
    if Stuck(w.db, |gpus|, rule) {
      events := [];
      if AllFit(w.db, |gpus|) && rule.InUse() {
        StuckIsDrained(w.db, |gpus|, rule);
      }
    } else {
      var e := ServiceCanAdvance(w, gpus, rule, self, now);
      ServiceKeepsHost(w, e, gpus, rule);
      AdvanceShrinks(w.db, Next(w, e).db);
      var rest := Drains(Next(w, e), gpus, rule, self, now);
      events := [e] + rest;
      assert events[1..] == rest;
    }
  }

  /** Every event of the run moves some task on. */
  ghost predicate AllAdvance(w: World, events: seq<Event>)
    decreases |events|
  {
    events != [] ==> Advances(w.db, Next(w, events[0]).db) && AllAdvance(Next(w, events[0]), events[1..])
  }

  lemma {:induction false} AdvancingRun(w: World, events: seq<Event>, gpus: seq<GpuId>, rule: Rule)
    requires Inv(w) && SameHost(w.db, gpus)
    requires AllService(w, events, gpus, rule) && AllAdvance(w, events)
    ensures |events| + |Ahead(After(w, events).db)| <= |Ahead(w.db)|
    ensures Inv(After(w, events)) && SameHost(After(w, events).db, gpus)
    ensures AllFit(w.db, |gpus|) ==> AllFit(After(w, events).db, |gpus|)
    decreases |events|
  {
    if events != [] {
      ServiceKeepsHost(w, events[0], gpus, rule);
      AdvanceShrinks(w.db, Next(w, events[0]).db);
      AdvancingRun(Next(w, events[0]), events[1..], gpus, rule);
    }
  }

  /** Whatever the order of service, a run in which every step advances some task is at most four steps
      per task long, and it cannot be continued exactly when service is stuck, which means drained where
      every waiting minimum fits the host. */
  lemma EveryServiceRunDrains(w: World, events: seq<Event>, gpus: seq<GpuId>, rule: Rule)
    requires Inv(w) && SameHost(w.db, gpus)
    requires AllService(w, events, gpus, rule) && AllAdvance(w, events)
    ensures |events| <= |Ahead(w.db)| <= 4 * |w.db.tasks|
    ensures (forall e :: Service(After(w, events), e, gpus, rule) ==>
               !Advances(After(w, events).db, Next(After(w, events), e).db))
            <==> Stuck(After(w, events).db, |gpus|, rule)
    ensures AllFit(w.db, |gpus|) && rule.InUse() ==>
              (Stuck(After(w, events).db, |gpus|, rule) <==> Drained(After(w, events).db, |gpus|, rule.reserve))
  {
    AdvancingRun(w, events, gpus, rule);
    AheadAtMost(w.db);
    StuckExactly(After(w, events), gpus, rule);
    if AllFit(w.db, |gpus|) && rule.InUse() {
      StuckIsDrained(After(w, events).db, |gpus|, rule);
    }
  }
}

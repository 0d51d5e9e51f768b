/** Two simultaneous default arrivals on an idle host: because enqueue, schedule and claim are one
    locked section, every interleaving gives the first the solo budget and the second the reserve. */
module Arrivals {
  import opened Prelude
  import opened Planner
  import opened PlannerTheorems
  import opened StoreSpec
  import opened StateStores
  import opened StoreInvariant
  import opened Coordination
  import opened Protocol
  import opened Scheduling
  import opened Drain
  import opened FileLocks

  // ---- What the planner gives a single and a second default request -----------------------------

  predicate Default(r: Request) {
    r.minGpus == 1 && r.maxGpus.None?
  }

  /** A lone default waiter that is not alone on the host takes everything that is free. */
  lemma SecondTakesAll(inp: Input)
    requires Plan(inp).Ok? && |inp.waiting| == 1 && !Alone(inp) && inp.free != [] && Default(inp.waiting[0])
    ensures Plan(inp).value == [Allocation(inp.waiting[0].id, inp.free)]
  {
    LoneWaiterGets(inp);
    assert |inp.free| <= inp.total && inp.free[..|inp.free|] == inp.free;
  }

  /** Two capped shares that use up what is free, or else are full, differ by at most one. */
  lemma EvenShares(total: int, free: int, k: int, p: int, a: int, b: int)
    requires 2 <= free <= total && 0 <= k
    requires a == 1 + Min(total - 1, k + if 0 < p then 1 else 0) && b == 1 + Min(total - 1, k + if 1 < p then 1 else 0)
    requires a + b <= free && (a + b < free ==> a == total && b == total)
    ensures a + b == free && 0 <= a - b <= 1
  {
  }

  lemma FlattenTwo(allocs: seq<Allocation>)
    requires |allocs| == 2
    ensures |Flatten(allocs)| == |allocs[0].gpus| + |allocs[1].gpus|
  {
    assert allocs[1..][0] == allocs[1] && allocs[1..][1..] == [];
    assert Flatten(allocs[1..]) == allocs[1].gpus + Flatten([]);
  }

  /** Had both arrivals become visible before the first schedule, they would have split the host evenly. */
  lemma BothVisibleSplitEvenly(inp: Input)
    requires Plan(inp).Ok? && |inp.waiting| == 2 && Distinct(Ids(inp.waiting)) && |inp.free| >= 2
    requires Default(inp.waiting[0]) && Default(inp.waiting[1])
    ensures var allocs := Plan(inp).value;
            && |allocs| == 2
            && |allocs[0].gpus| + |allocs[1].gpus| == |inp.free|
            && 0 <= |allocs[0].gpus| - |allocs[1].gpus| <= 1
    ensures |inp.free| == 4 ==> |Plan(inp).value[0].gpus| == 2 && |Plan(inp).value[1].gpus| == 2
  {
    var q := Queue(inp.waiting);
    QueueFacts(inp.waiting);
    assert q[0] in q && q[1] in q;
    assert Default(q[0]) && Default(q[1]);
    BothSelected(q, |inp.free|, inp.strictFifo);
    PlanIsBatch(inp);
    var k, p := BatchClosedForm(inp);
    EvenBatch(inp, q, k, p, Plan(inp).value);
  }

  lemma EvenBatch(inp: Input, q: seq<Request>, k: int, p: int, allocs: seq<Allocation>)
    requires |q| == 2 && Default(q[0]) && Default(q[1]) && 2 <= |inp.free| <= inp.total
    requires BatchShape(inp, q, k, p, allocs)
    ensures |allocs| == 2 && |allocs[0].gpus| + |allocs[1].gpus| == |inp.free|
    ensures 0 <= |allocs[0].gpus| - |allocs[1].gpus| <= 1
  {
    FlattenTwo(allocs);
    EvenShares(inp.total, |inp.free|, k, p, |allocs[0].gpus|, |allocs[1].gpus|);
  }

  lemma BothSelected(q: seq<Request>, n: int, strict: bool)
    requires |q| == 2 && n >= 2 && Default(q[0]) && Default(q[1])
    ensures Selected(q, n, strict) == q
  {
    SelectedStep(q, n, strict);
    SelectedStep(q[1..], n - 1, strict);
    assert q[1..][1..] == [] && Selected([], n - 2, strict) == [];
    assert q == [q[0]] + [q[1]];
  }

  // ---- The two sections, whole ------------------------------------------------------------------

  /** `k` GPUs of the list are held by the one running task, whose process lives; nobody waits. */
  ghost predicate OneRuns(db: Tables, u: TaskId, k: nat, gpus: seq<GpuId>, procs: Procs) {
    && Consistent(db) && Inside(db) && SignatureFits(db, gpus)
    && ActiveTasks(db) == {u} && QueuedTasks(db) == {}
    && k <= |gpus| && GpusOf(db, u) == gpus[..k]
    && PidMatches(procs, db.leases[u].pid, db.leases[u].pidStart)
    && u in db.tasks && db.tasks[u].status == Running
  }

  ghost predicate Idle(db: Tables, gpus: seq<GpuId>) {
    Consistent(db) && Inside(db) && SignatureFits(db, gpus) && ActiveTasks(db) == {} && QueuedTasks(db) == {}
  }

  function DefaultArrival(t: TaskId, priority: int): Arrival {
    Arrival(t, 1, None, priority, true, true)
  }

  function Queueing(db: Tables, a: Arrival, now: int): Tables {
    db.(tasks := db.tasks[a.t := Task(Queued, a.minGpus, a.maxGpus, a.priority, now, None, None, None, None)])
  }

  lemma QueueingFacts(db: Tables, t: TaskId, priority: int, now: int)
    requires Consistent(db) && Inside(db) && QueuedTasks(db) == {} && t !in db.tasks
    ensures var a := DefaultArrival(t, priority);
            var added := Queueing(db, a, now);
            && AddTask(db, t, 1, None, priority, now, true, true) == Ok(added)
            && Consistent(added) && Inside(added) && QueuedTasks(added) == {t} && ActiveTasks(added) == ActiveTasks(db)
            && Default(RequestOf(added, t)) && forall u :: GpusOf(added, u) == GpusOf(db, u)
  {
    var op := Add(t, 1, None, priority, now, true, true);
    StepKeeps(db, op);
    StepKeepsInside(db, op);
  }

  /** The first section on an idle host. */
  lemma FirstArrival(db: Tables, added: Tables, t: TaskId, priority: int, env: Env, cfg: Settings, gpus: seq<GpuId>)
    requires Idle(db, gpus) && t !in db.tasks && Distinct(gpus) && gpus != []
    requires added == Queueing(db, DefaultArrival(t, priority), env.now)
    requires env.snapshot == Some(Snapshot(gpus, {}))
    ensures ViewLocked(added, env, cfg) == Ok((added.(signature := Some(Members(gpus))), View({}, gpus)))
    ensures Plan(SeenInput(added, env, cfg))
            == Ok([Allocation(t, gpus[..|gpus| - Min(cfg.reserve, |gpus| - 1)])])
  {
    QueueingFacts(db, t, priority, env.now);
    assert SameHost(added, gpus) && AllWellSized(added, |gpus|);
    IdlePlanExactly(added, env, cfg, gpus);
    IdleView(added, env, cfg, gpus);
    IdlePlanInput(added, env, cfg, gpus);
    var inp := SeenInput(added, env, cfg);
    assert inp.waiting[0] in inp.waiting;
    SoloStartsExactly(inp);
  }

  lemma {:induction false} UntakenSuffix(gpus: seq<GpuId>, k: nat)
    requires Distinct(gpus) && k <= |gpus|
    ensures Untaken(gpus, Members(gpus[..k])) == gpus[k..]
  {
    UntakenSuffixOf(gpus, 0, k);
    assert gpus[0..] == gpus;
  }

  lemma {:induction false} UntakenSuffixOf(gpus: seq<GpuId>, i: nat, k: nat)
    requires Distinct(gpus) && i <= |gpus| && k <= |gpus|
    ensures Untaken(gpus[i..], Members(gpus[..k])) == gpus[Max(i, k)..]
    decreases |gpus| - i
  {
    if i < |gpus| {
      UntakenSuffixOf(gpus, i + 1, k);
      assert gpus[i..][1..] == gpus[i + 1..] && gpus[i..][0] == gpus[i];
      assert gpus[i] in gpus[..k] <==> i < k by {
        if i < k {
          assert gpus[..k][i] == gpus[i];
        }
      }
      assert gpus[i] in Members(gpus[..k]) <==> i < k;
    }
  }

  lemma ActiveOfOne(db: Tables, u: TaskId)
    requires Consistent(db) && ActiveTasks(db) == {u}
    ensures ActiveGpus(db) == Members(GpusOf(db, u))
  {
    GpusMembers(db.rows, u);
    assert u in ActiveTasks(db);
    forall g ensures g in ActiveGpus(db) <==> g in Members(GpusOf(db, u)) {
      if g in ActiveGpus(db) {
        var r :| r in db.rows && Holding(db, r.task) && r.gpu == g;
        assert r.task in ActiveTasks(db);
      }
    }
  }

  lemma LiveStays(db: Tables, u: TaskId, now: int, timeout: int, procs: Procs)
    requires ActiveTasks(db) == {u} && u in db.leases
    requires PidMatches(procs, db.leases[u].pid, db.leases[u].pidStart)
    ensures RecoverStale(db, now, timeout, procs) == db
  {
    forall t ensures t !in StaleTasks(db, now, timeout, procs) {
      assert t == u || t !in ActiveTasks(db);
    }
    assert StaleTasks(db, now, timeout, procs) == {};
    RecoverNone(db, now);
  }

  /** What the second section sees: everything but the first task's GPUs is free. */
  lemma SecondView(added: Tables, u: TaskId, k: nat, env: Env, cfg: Settings, gpus: seq<GpuId>, busy: set<GpuId>)
    requires Consistent(added) && Inside(added) && SignatureFits(added, gpus) && Distinct(gpus) && gpus != []
    requires ActiveTasks(added) == {u} && k <= |gpus| && GpusOf(added, u) == gpus[..k] && u in added.leases
    requires PidMatches(env.procs, added.leases[u].pid, added.leases[u].pidStart)
    requires env.snapshot == Some(Snapshot(gpus, busy)) && busy <= ActiveGpus(added)
    ensures ViewLocked(added, env, cfg) == Ok((added.(signature := Some(Members(gpus))), View({}, gpus[k..])))
  {
    LiveStays(added, u, env.now, cfg.timeout, env.procs);
    var seen := added.(signature := Some(Members(gpus)));
    ActiveOfOne(added, u);
    assert ActiveGpus(seen) == ActiveGpus(added);
    assert busy - ActiveGpus(seen) == {};
    assert ActiveGpus(seen) + {} == ActiveGpus(seen);
    UntakenSuffix(gpus, k);
  }

  /** The second section, while the first task runs. */
  lemma SecondArrival(db: Tables, added: Tables, u: TaskId, k: nat, t: TaskId, priority: int, env: Env, cfg: Settings,
                      gpus: seq<GpuId>, busy: set<GpuId>)
    requires OneRuns(db, u, k, gpus, env.procs) && t !in db.tasks && Distinct(gpus) && k < |gpus|
    requires added == Queueing(db, DefaultArrival(t, priority), env.now)
    requires env.snapshot == Some(Snapshot(gpus, busy)) && busy <= ActiveGpus(added)
    ensures ViewLocked(added, env, cfg) == Ok((added.(signature := Some(Members(gpus))), View({}, gpus[k..])))
    ensures Plan(SeenInput(added, env, cfg)) == Ok([Allocation(t, gpus[k..])])
  {
    QueueingFacts(db, t, priority, env.now);
    assert u in ActiveTasks(added);
    SecondView(added, u, k, env, cfg, gpus, busy);
    var seen := added.(signature := Some(Members(gpus)));
    var inp := SeenInput(added, env, cfg);
    WaitingLists(seen);
    assert QueuedTasks(seen) == {t} && ActiveTasks(seen) == {u};
    assert inp.waiting[0] in inp.waiting;
    SeenInputPlausible(added, env, cfg);
    PlanAcceptedExactly(inp);
    SecondTakesAll(inp);
  }

  // ---- The two sections, step by step -----------------------------------------------------------

  datatype Micro = Enqueue(s: nat) | Look(s: nat) | Reserve(s: nat) | Take(s: nat)

  /** The database, the view each session keeps between its two scheduling transactions, and the sessions
      that an error has thrown out of their section. */
  datatype Desk = Desk(db: Tables, views: map<nat, View>, failed: set<nat>)

  /** Two arrivals: what they ask for, who they are, and what they find. `load` says on which GPUs
      processes run, given the leases. */
  datatype Scenario = Scenario(task: nat -> TaskId, priority: nat -> int, self: nat -> Pid, now: nat -> int,
                               cfg: nat -> Settings, procs: Procs, gpus: seq<GpuId>, load: Tables -> set<GpuId>)

  ghost predicate Plausible(sc: Scenario, reserve: nat) {
    && sc.task(0) != sc.task(1)
    && (forall s :: s < 2 ==> sc.self(s) >= 1 && sc.self(s) in sc.procs && sc.cfg(s).reserve == reserve)
    && (forall db :: sc.load(db) <= ActiveGpus(db))
    && Distinct(sc.gpus)
  }

  ghost function EnvAt(sc: Scenario, s: nat, db: Tables): Env {
    Env(Some(Snapshot(sc.gpus, sc.load(db))), sc.procs, sc.now(s))
  }

  ghost function Failing(d: Desk, s: nat): Desk {
    d.(failed := d.failed + {s})
  }

  /** One step of a section; after an error the rest of the section is skipped. */
  ghost function Perform(sc: Scenario, a: Micro, d: Desk): Desk {
    if a.s in d.failed then d
    else
      match a
      case Enqueue(s) =>
        (match AddTask(d.db, sc.task(s), 1, None, sc.priority(s), sc.now(s), true, true)
         case Ok(next) => d.(db := next) case Err(_) => Failing(d, s))
      case Look(s) =>
        (match ViewLocked(d.db, EnvAt(sc, s, d.db), sc.cfg(s))
         case Ok((seen, view)) => d.(db := seen, views := d.views[s := view]) case Err(_) => Failing(d, s))
      case Reserve(s) =>
        if s !in d.views then d
        else
          var v := d.views[s];
          (match AllocateBatch(d.db, v.free, |sc.gpus|, |v.external|, sc.cfg(s).reserve, sc.cfg(s).strict, sc.now(s))
           case Ok(next) => d.(db := next) case Err(_) => Failing(d, s))
      case Take(s) =>
        (match Apply(d.db, Claim(sc.task(s), sc.self(s), sc.procs, sc.now(s)))
         case Ok(next) => d.(db := next) case Err(_) => Failing(d, s))
  }

  ghost function Runner(sc: Scenario): (Micro, Desk) -> Desk {
    (a, d) => Perform(sc, a, d)
  }

  /** The locked section of a first arrival: the enqueue takes the lock a second time. */
  function Code(s: nat): seq<Instr<Micro>> {
    [In, In, Act(Enqueue(s)), Out, Act(Look(s)), Act(Reserve(s)), Act(Take(s)), Out]
  }

  lemma CodeIsSection(s: nat)
    ensures Section(Code(s))
    ensures Acts(Code(s)) == [Enqueue(s), Look(s), Reserve(s), Take(s)]
  {
    CodeDepth(s);
    CodeActs(s);
  }

  lemma CodeDepth(s: nat)
    ensures Section(Code(s))
  {
    var c := Code(s);
    assert Depth(c, 0) == 0 && Depth(c, 1) == 1 && Depth(c, 2) == 2 && Depth(c, 3) == 2 && Depth(c, 4) == 1;
    assert Depth(c, 5) == 1 && Depth(c, 6) == 1 && Depth(c, 7) == 1 && Depth(c, 8) == 0;
  }

  lemma CodeActs(s: nat)
    ensures Acts(Code(s)) == [Enqueue(s), Look(s), Reserve(s), Take(s)]
  {
    EntryActs(s);
    var c := Code(s);
    assert c[..8] == c;
    ActsSnoc(c, 4);
    ActsSnoc(c, 5);
    ActsSnoc(c, 6);
    ActsSnoc(c, 7);
  }

  lemma EntryActs(s: nat)
    ensures Acts(Code(s)[..4]) == [Enqueue(s)]
  {
    var c := Code(s);
    assert c[..0] == [];
    ActsSnoc(c, 0);
    ActsSnoc(c, 1);
    ActsSnoc(c, 2);
    ActsSnoc(c, 3);
  }

  /** One section run without interruption. */
  ghost function EntrySection(sc: Scenario, s: nat, d: Desk): Desk {
    Do(Runner(sc), d, [Enqueue(s), Look(s), Reserve(s), Take(s)])
  }

  lemma SectionSteps(sc: Scenario, s: nat, d: Desk, d1: Desk, d2: Desk, d3: Desk)
    requires Perform(sc, Enqueue(s), d) == d1 && Perform(sc, Look(s), d1) == d2 && Perform(sc, Reserve(s), d2) == d3
    ensures EntrySection(sc, s, d) == Perform(sc, Take(s), d3)
  {
    var a, b, c, e := Enqueue(s), Look(s), Reserve(s), Take(s);
    DoSnoc(Runner(sc), d, [], a);
    DoSnoc(Runner(sc), d, [a], b);
    DoSnoc(Runner(sc), d, [a, b], c);
    DoSnoc(Runner(sc), d, [a, b, c], e);
    assert [a, b, c, e] == [a, b, c] + [e] && [a, b, c] == [a, b] + [c] && [a, b] == [a] + [b] && [a] == [] + [a];
  }

  lemma LookStep(sc: Scenario, s: nat, d: Desk, seen: Tables, view: View)
    requires s !in d.failed && ViewLocked(d.db, EnvAt(sc, s, d.db), sc.cfg(s)) == Ok((seen, view))
    ensures Perform(sc, Look(s), d) == d.(db := seen, views := d.views[s := view])
  {
  }

  /** What a session's last two steps make of its view. */
  lemma ReserveAndTake(sc: Scenario, s: nat, d: Desk, view: View)
    requires s !in d.failed && s in d.views && d.views[s] == view
    ensures var cfg := sc.cfg(s);
            var r := AllocateBatch(d.db, view.free, |sc.gpus|, |view.external|, cfg.reserve, cfg.strict, sc.now(s));
            Perform(sc, Take(s), Perform(sc, Reserve(s), d)).db
            == if r.Ok? then Step(r.value, Claim(sc.task(s), sc.self(s), sc.procs, sc.now(s))) else d.db
  {
  }

  /** After a successful enqueue the section goes on as the coordinator does, error or not. */
  lemma AfterEnqueue(sc: Scenario, s: nat, d: Desk, env: Env)
    requires s !in d.failed && env == EnvAt(sc, s, d.db)
    ensures Perform(sc, Take(s), Perform(sc, Reserve(s), Perform(sc, Look(s), d))).db
            == ScheduleAndClaim(d.db, sc.task(s), sc.self(s), env, sc.cfg(s)).0
  {
    TurnClaims(d.db, sc.task(s), sc.self(s), env, sc.cfg(s), ScheduleLocked(d.db, env, sc.cfg(s)));
    if ViewLocked(d.db, env, sc.cfg(s)).Ok? {
      var (seen, view) := ViewLocked(d.db, env, sc.cfg(s)).value;
      LookStep(sc, s, d, seen, view);
      ReserveAndTake(sc, s, d.(db := seen, views := d.views[s := view]), view);
      ScheduleFromView(d.db, env, sc.cfg(s), seen, view);
    }
  }

  /** Performed without interruption the four steps are the coordinator's entry section, whether it
      succeeds or fails at any of them. */
  lemma EntryIsEnter(sc: Scenario, s: nat, d: Desk)
    requires s !in d.failed
    ensures var added := Step(d.db, Add(sc.task(s), 1, None, sc.priority(s), sc.now(s), true, true));
            EntrySection(sc, s, d).db
            == Enter(d.db, DefaultArrival(sc.task(s), sc.priority(s)), sc.self(s), EnvAt(sc, s, added), sc.cfg(s)).0
  {
    var d1 := Perform(sc, Enqueue(s), d);
    var d2 := Perform(sc, Look(s), d1);
    SectionSteps(sc, s, d, d1, d2, Perform(sc, Reserve(s), d2));
    if s !in d1.failed {
      AfterEnqueue(sc, s, d1, EnvAt(sc, s, d1.db));
    }
  }

  /** The task runs on its slice and nothing but it has changed. */
  ghost predicate Started(before: Tables, end: Tables, t: TaskId, slice: seq<GpuId>, procs: Procs) {
    && Consistent(end) && Inside(end)
    && ActiveTasks(end) == ActiveTasks(before) + {t} && QueuedTasks(end) == {}
    && GpusOf(end, t) == slice && t in end.tasks && end.tasks[t].status == Running
    && t in end.leases && PidMatches(procs, end.leases[t].pid, end.leases[t].pidStart)
    && end.signature == before.signature
    && forall u :: u != t ==> Untouched(before, end, u)
  }

  lemma ScheduledNext(added: Tables, env: Env, cfg: Settings, allocs: seq<Allocation>, seen: Tables, view: View)
    requires Consistent(added) && Inside(added) && ViewLocked(added, env, cfg) == Ok((seen, view))
    requires Plan(SeenInput(added, env, cfg)) == Ok(allocs)
    ensures var r := AllocateBatch(seen, view.free, |env.snapshot.value.gpus|, |view.external|, cfg.reserve, cfg.strict,
                                   env.now);
            && r.Ok? && Consistent(r.value) && Inside(r.value) && Consistent(seen)
            && (forall a :: a in allocs ==> a.id in seen.tasks) && Placed(seen, r.value, allocs, env.now)
  {
    ScheduleRefinesPlan(added, env, cfg);
    ViewKeeps(added, env, cfg);
    var ops := ScheduleIsRun(added, env, cfg);
    RunKeeps(added, ops);
    GuardedRunInside(added, ops);
  }

  /** A whole section after a successful view and plan: the only waiter runs on its planned slice. */
  lemma WholeSection(sc: Scenario, s: nat, d: Desk, added: Tables, seen: Tables, view: View, slice: seq<GpuId>)
    requires s !in d.failed && sc.self(s) >= 1 && sc.self(s) in sc.procs
    requires Consistent(d.db) && Inside(d.db) && QueuedTasks(d.db) == {} && sc.task(s) !in d.db.tasks
    requires added == Queueing(d.db, DefaultArrival(sc.task(s), sc.priority(s)), sc.now(s))
    requires seen == added.(signature := Some(Members(sc.gpus)))
    requires ViewLocked(added, EnvAt(sc, s, added), sc.cfg(s)) == Ok((seen, view))
    requires Plan(SeenInput(added, EnvAt(sc, s, added), sc.cfg(s))) == Ok([Allocation(sc.task(s), slice)])
    ensures Started(seen, EntrySection(sc, s, d).db, sc.task(s), slice, sc.procs)
  {
    var t, env, cfg := sc.task(s), EnvAt(sc, s, added), sc.cfg(s);
    QueueingFacts(d.db, t, sc.priority(s), sc.now(s));
    ScheduledNext(added, env, cfg, [Allocation(t, slice)], seen, view);
    var next := AllocateBatch(seen, view.free, |sc.gpus|, |view.external|, cfg.reserve, cfg.strict, sc.now(s)).value;
    ScheduleFromView(added, env, cfg, seen, view);
    TurnClaims(added, t, sc.self(s), env, cfg, (next, None));
    EntryIsEnter(sc, s, d);
    StartedByClaim(sc, s, added, seen, next, slice);
  }

  /** Claiming the placed task starts it. */
  lemma ClaimStarts(seen: Tables, next: Tables, a: Allocation, self: Pid, procs: Procs, now: int)
    requires a.id in seen.tasks && Placed(seen, next, [a], now) && self >= 1 && self in procs
    ensures var end := Step(next, Claim(a.id, self, procs, now));
            && GpusOf(end, a.id) == a.gpus && a.id in end.tasks && end.tasks[a.id].status == Running
            && Holding(end, a.id) && PidMatches(procs, end.leases[a.id].pid, end.leases[a.id].pidStart)
            && end.signature == seen.signature
  {
    assert a in [a];
    assert PlacedOne(seen, next, a, now);
  }

  lemma ClaimTouchesOne(seen: Tables, next: Tables, a: Allocation, self: Pid, procs: Procs, now: int)
    requires a.id in seen.tasks && Placed(seen, next, [a], now)
    ensures forall u :: u != a.id ==> Untouched(seen, Step(next, Claim(a.id, self, procs, now)), u)
  {
    forall u | u != a.id ensures Untouched(seen, Step(next, Claim(a.id, self, procs, now)), u) {
      assert !Named([a], u);
      assert Untouched(seen, next, u);
    }
  }

  lemma OnlyStarted(seen: Tables, end: Tables, t: TaskId)
    requires QueuedTasks(seen) == {t} && Holding(end, t) && t in end.tasks && end.tasks[t].status == Running
    requires forall u :: u != t ==> Untouched(seen, end, u)
    ensures ActiveTasks(end) == ActiveTasks(seen) + {t} && QueuedTasks(end) == {}
  {
    forall u ensures u in ActiveTasks(end) <==> u in ActiveTasks(seen) + {t} {
      assert u == t || Untouched(seen, end, u);
    }
    forall u ensures u !in QueuedTasks(end) {
      assert u == t || (Untouched(seen, end, u) && u !in QueuedTasks(seen));
    }
  }

  lemma StartedByClaim(sc: Scenario, s: nat, added: Tables, seen: Tables, next: Tables, slice: seq<GpuId>)
    requires sc.self(s) >= 1 && sc.self(s) in sc.procs
    requires Consistent(seen) && QueuedTasks(added) == {sc.task(s)} && seen == added.(signature := seen.signature)
    requires Consistent(next) && Inside(next) && sc.task(s) in seen.tasks
    requires Placed(seen, next, [Allocation(sc.task(s), slice)], sc.now(s))
    ensures Started(seen, Step(next, Claim(sc.task(s), sc.self(s), sc.procs, sc.now(s))), sc.task(s), slice, sc.procs)
  {
    var a, op := Allocation(sc.task(s), slice), Claim(sc.task(s), sc.self(s), sc.procs, sc.now(s));
    assert QueuedTasks(seen) == QueuedTasks(added);
    StepKeeps(next, op);
    StepKeepsInside(next, op);
    ClaimStarts(seen, next, a, sc.self(s), sc.procs, sc.now(s));
    ClaimTouchesOne(seen, next, a, sc.self(s), sc.procs, sc.now(s));
    OnlyStarted(seen, Step(next, op), a.id);
  }

  lemma StepFailsItself(sc: Scenario, a: Micro, d: Desk)
    ensures Perform(sc, a, d).failed <= d.failed + {a.s}
  {
  }

  lemma FailsOnlyItself(sc: Scenario, s: nat, d: Desk)
    ensures EntrySection(sc, s, d).failed <= d.failed + {s}
  {
    var d1 := Perform(sc, Enqueue(s), d);
    StepFailsItself(sc, Enqueue(s), d);
    var d2 := Perform(sc, Look(s), d1);
    StepFailsItself(sc, Look(s), d1);
    var d3 := Perform(sc, Reserve(s), d2);
    StepFailsItself(sc, Reserve(s), d2);
    StepFailsItself(sc, Take(s), d3);
    SectionSteps(sc, s, d, d1, d2, d3);
  }

  /** How many GPUs stay back for the second arrival. */
  function Kept(total: int, reserve: int): int {
    Min(reserve, total - 1)
  }

  lemma FirstSection(sc: Scenario, s: nat, reserve: nat, d: Desk, end: Tables)
    requires Plausible(sc, reserve) && s < 2 && sc.gpus != [] && Idle(d.db, sc.gpus) && sc.task(s) !in d.db.tasks
    requires s !in d.failed && end == EntrySection(sc, s, d).db
    ensures OneRuns(end, sc.task(s), |sc.gpus| - Kept(|sc.gpus|, reserve), sc.gpus, sc.procs)
    ensures forall u :: u != sc.task(s) && u !in d.db.tasks ==> u !in end.tasks
  {
    var t, k := sc.task(s), |sc.gpus| - Kept(|sc.gpus|, reserve);
    var added := Queueing(d.db, DefaultArrival(t, sc.priority(s)), sc.now(s));
    var seen := added.(signature := Some(Members(sc.gpus)));
    FirstAlone(sc, s, reserve, d, added, seen);
    StartedAlone(sc, t, k, d.db, added, seen, end);
  }

  lemma FirstAlone(sc: Scenario, s: nat, reserve: nat, d: Desk, added: Tables, seen: Tables)
    requires Plausible(sc, reserve) && s < 2 && sc.gpus != [] && Idle(d.db, sc.gpus) && sc.task(s) !in d.db.tasks
    requires s !in d.failed && added == Queueing(d.db, DefaultArrival(sc.task(s), sc.priority(s)), sc.now(s))
    requires seen == added.(signature := Some(Members(sc.gpus)))
    ensures ActiveTasks(seen) == {}
    ensures Started(seen, EntrySection(sc, s, d).db, sc.task(s), sc.gpus[..|sc.gpus| - Kept(|sc.gpus|, reserve)],
                    sc.procs)
  {
    QueueingFacts(d.db, sc.task(s), sc.priority(s), sc.now(s));
    assert forall u :: Holding(added, u) ==> u in ActiveTasks(added);
    assert ActiveGpus(added) == {} && sc.load(added) == {};
    FirstArrival(d.db, added, sc.task(s), sc.priority(s), EnvAt(sc, s, added), sc.cfg(s), sc.gpus);
    WholeSection(sc, s, d, added, seen, View({}, sc.gpus), sc.gpus[..|sc.gpus| - Kept(|sc.gpus|, reserve)]);
    assert ActiveTasks(seen) == ActiveTasks(added);
  }

  lemma StartedAlone(sc: Scenario, t: TaskId, k: int, db: Tables, added: Tables, seen: Tables, end: Tables)
    requires 0 <= k <= |sc.gpus| && t !in db.tasks && added.tasks.Keys == db.tasks.Keys + {t}
    requires seen == added.(signature := Some(Members(sc.gpus))) && ActiveTasks(seen) == {}
    requires Started(seen, end, t, sc.gpus[..k], sc.procs)
    ensures OneRuns(end, t, k, sc.gpus, sc.procs)
    ensures forall u :: u != t && u !in db.tasks ==> u !in end.tasks
  {
    forall u | u != t && u !in db.tasks ensures u !in end.tasks {
      assert Untouched(seen, end, u);
    }
  }

  lemma SecondSection(sc: Scenario, s: nat, reserve: nat, d: Desk, u: TaskId, k: nat, added: Tables, seen: Tables)
    requires Plausible(sc, reserve) && s < 2 && OneRuns(d.db, u, k, sc.gpus, sc.procs) && k < |sc.gpus|
    requires sc.task(s) !in d.db.tasks && u in d.db.tasks && u != sc.task(s) && s !in d.failed
    requires added == Queueing(d.db, DefaultArrival(sc.task(s), sc.priority(s)), sc.now(s))
    requires seen == added.(signature := Some(Members(sc.gpus)))
    ensures Started(seen, EntrySection(sc, s, d).db, sc.task(s), sc.gpus[k..], sc.procs)
  {
    QueueingFacts(d.db, sc.task(s), sc.priority(s), sc.now(s));
    SecondArrival(d.db, added, u, k, sc.task(s), sc.priority(s), EnvAt(sc, s, added), sc.cfg(s), sc.gpus,
                  sc.load(added));
    WholeSection(sc, s, d, added, seen, View({}, sc.gpus[k..]), sc.gpus[k..]);
  }

  ghost predicate BothServed(sc: Scenario, db: Tables, first: nat, second: nat, reserve: nat)
    requires sc.gpus != []
  {
    var t, u, k := sc.task(first), sc.task(second), |sc.gpus| - Kept(|sc.gpus|, reserve);
    && GpusOf(db, t) == sc.gpus[..k] && GpusOf(db, u) == sc.gpus[k..]
    && Holding(db, t) && Holding(db, u)
    && t in db.tasks && db.tasks[t].status == Running && u in db.tasks && db.tasks[u].status == Running
  }

  lemma FirstStillRuns(sc: Scenario, reserve: nat, mid: Tables, seen: Tables, end: Tables, a: nat, b: nat)
    requires sc.gpus != [] && sc.task(a) != sc.task(b) && sc.task(b) !in mid.tasks
    requires OneRuns(mid, sc.task(a), |sc.gpus| - Kept(|sc.gpus|, reserve), sc.gpus, sc.procs)
    requires seen == Queueing(mid, DefaultArrival(sc.task(b), sc.priority(b)), sc.now(b))
                       .(signature := Some(Members(sc.gpus)))
    requires Started(seen, end, sc.task(b), sc.gpus[|sc.gpus| - Kept(|sc.gpus|, reserve)..], sc.procs)
    ensures BothServed(sc, end, a, b, reserve)
  {
    assert sc.task(a) in ActiveTasks(mid);
    assert Untouched(seen, end, sc.task(a));
    assert sc.task(b) in ActiveTasks(end);
  }

  lemma ThenTheOther(sc: Scenario, reserve: nat, mid: Desk, a: nat, b: nat, end: Tables)
    requires Plausible(sc, reserve) && reserve >= 1 && |sc.gpus| >= 2
    requires b < 2 && sc.task(a) != sc.task(b) && sc.task(b) !in mid.db.tasks && b !in mid.failed
    requires OneRuns(mid.db, sc.task(a), |sc.gpus| - Kept(|sc.gpus|, reserve), sc.gpus, sc.procs)
    requires end == EntrySection(sc, b, mid).db
    ensures BothServed(sc, end, a, b, reserve)
  {
    var added := Queueing(mid.db, DefaultArrival(sc.task(b), sc.priority(b)), sc.now(b));
    var seen := added.(signature := Some(Members(sc.gpus)));
    SecondSection(sc, b, reserve, mid, sc.task(a), |sc.gpus| - Kept(|sc.gpus|, reserve), added, seen);
    FirstStillRuns(sc, reserve, mid.db, seen, end, a, b);
  }

  lemma OneAfterTheOther(sc: Scenario, reserve: nat, d: Desk, mid: Desk, a: nat, b: nat)
    requires Plausible(sc, reserve) && reserve >= 1 && |sc.gpus| >= 2 && Idle(d.db, sc.gpus)
    requires a < 2 && b < 2 && a != b && sc.task(a) !in d.db.tasks && sc.task(b) !in d.db.tasks
    requires d.failed == {} && mid == EntrySection(sc, a, d)
    ensures BothServed(sc, EntrySection(sc, b, mid).db, a, b, reserve)
  {
    FirstSection(sc, a, reserve, d, mid.db);
    FailsOnlyItself(sc, a, d);
    ThenTheOther(sc, reserve, mid, a, b, EntrySection(sc, b, mid).db);
  }

  lemma SectionIsDo(sc: Scenario, s: nat, d: Desk)
    ensures Do(Runner(sc), d, Acts(Code(s))) == EntrySection(sc, s, d)
  {
    CodeIsSection(s);
  }

  lemma SerialOfTwo(run: (Micro, Desk) -> Desk, code: seq<seq<Instr<Micro>>>, d: Desk, a: nat, b: nat)
    requires a < |code| && b < |code|
    ensures Serial(run, code, d, [a, b]) == Do(run, Do(run, d, Acts(code[a])), Acts(code[b]))
  {
    assert [a, b][..1] == [a] && [a][..0] == [];
    assert Serial(run, code, d, [a]) == Do(run, d, Acts(code[a]));
  }

  /** From an idle host of two or more GPUs with a reserve of at least one: in every interleaving of the
      instructions of two default arrivals, once both are through, whoever took the lock first runs on
      all GPUs but the reserve, and the other runs on exactly those. */
  lemma TwoArrivals(sc: Scenario, reserve: nat, db: Tables, schedule: seq<nat>)
    requires Plausible(sc, reserve) && reserve >= 1 && |sc.gpus| >= 2 && Idle(db, sc.gpus)
    requires sc.task(0) !in db.tasks && sc.task(1) !in db.tasks
    ensures var code := [Code(0), Code(1)];
            var end := Ticks(Runner(sc), code, Begin(2, Desk(db, map[], {})), schedule);
            && WellFormed(code, end)
            && (Finished(code, end, 0) && Finished(code, end, 1) ==>
                 BothServed(sc, end.data.db, 0, 1, reserve) || BothServed(sc, end.data.db, 1, 0, reserve))
  {
    var code, start := [Code(0), Code(1)], Desk(db, map[], {});
    CodeIsSection(0);
    CodeIsSection(1);
    SectionsAreAtomic(Runner(sc), code, start, schedule);
    BothThrough(sc, reserve, start, code, Ticks(Runner(sc), code, Begin(2, start), schedule));
  }

  lemma BothThrough(sc: Scenario, reserve: nat, d: Desk, code: seq<seq<Instr<Micro>>>, end: Machine<Desk>)
    requires Plausible(sc, reserve) && reserve >= 1 && |sc.gpus| >= 2 && Idle(d.db, sc.gpus)
    requires sc.task(0) !in d.db.tasks && sc.task(1) !in d.db.tasks
    requires code == [Code(0), Code(1)] && d.failed == {}
    requires WellFormed(code, end) && Distinct(end.order) && Known(end.order, 2)
    requires forall s :: 0 <= s < 2 ==> (end.depth[s] > 0 <==> end.owner == Some(s))
    requires forall s :: 0 <= s < 2 ==> (Finished(code, end, s) <==> s in end.order && end.owner != Some(s))
    requires end.owner.None? ==> end.data == Serial(Runner(sc), code, d, end.order)
    requires end.owner.Some? ==> end.owner.value < 2
    ensures Finished(code, end, 0) && Finished(code, end, 1) ==>
              BothServed(sc, end.data.db, 0, 1, reserve) || BothServed(sc, end.data.db, 1, 0, reserve)
  {
    if Finished(code, end, 0) && Finished(code, end, 1) {
      assert 0 in end.order && 1 in end.order && end.owner.None?;
      TwoInOrder(end.order);
      if end.order == [0, 1] {
        BothDone(sc, reserve, d, code, 0, 1);
      } else {
        BothDone(sc, reserve, d, code, 1, 0);
      }
    }
  }

  lemma SerialIsSections(sc: Scenario, d: Desk, code: seq<seq<Instr<Micro>>>, a: nat, b: nat)
    requires code == [Code(0), Code(1)] && a < 2 && b < 2
    ensures Serial(Runner(sc), code, d, [a, b]) == EntrySection(sc, b, EntrySection(sc, a, d))
  {
    assert code[a] == Code(a) && code[b] == Code(b);
    SerialOfTwo(Runner(sc), code, d, a, b);
    SectionIsDo(sc, a, d);
    SectionIsDo(sc, b, EntrySection(sc, a, d));
  }

  lemma BothDone(sc: Scenario, reserve: nat, d: Desk, code: seq<seq<Instr<Micro>>>, a: nat, b: nat)
    requires Plausible(sc, reserve) && reserve >= 1 && |sc.gpus| >= 2 && Idle(d.db, sc.gpus)
    requires a < 2 && b < 2 && a != b && sc.task(a) !in d.db.tasks && sc.task(b) !in d.db.tasks
    requires code == [Code(0), Code(1)] && d.failed == {}
    ensures BothServed(sc, Serial(Runner(sc), code, d, [a, b]).db, a, b, reserve)
  {
    SerialIsSections(sc, d, code, a, b);
    OneAfterTheOther(sc, reserve, d, EntrySection(sc, a, d), a, b);
  }

  lemma TwoInOrder(order: seq<nat>)
    requires Distinct(order) && Known(order, 2) && 0 in order && 1 in order
    ensures order == [0, 1] || order == [1, 0]
  {
    var i :| 0 <= i < |order| && order[i] == 0;
    var j :| 0 <= j < |order| && order[j] == 1;
    DistinctCount(order);
    SubsetSize(Members(order), {0, 1});
  }
}

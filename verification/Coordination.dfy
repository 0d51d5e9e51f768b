/** The coordinator's locked sections as functions on the database: what one session does between
    taking the file lock and giving it back. */
module Coordination {
  import opened Prelude
  import opened Planner
  import opened StoreSpec

  /** What the inventory query reports: the GPUs in order, and those on which some process runs. */
  datatype Snapshot = Snapshot(gpus: seq<GpuId>, busy: set<GpuId>)

  /** A session's settings; the launch timeout is in nanoseconds. */
  datatype Settings = Settings(reserve: nat, strict: bool, timeout: int)

  /** One reading of the outside world; the query may fail. */
  datatype Env = Env(snapshot: Option<Snapshot>, procs: Procs, now: int)

  datatype View = View(external: set<GpuId>, free: seq<GpuId>)

  datatype Arrival = Arrival(t: TaskId, minGpus: int, maxGpus: Option<int>, priority: int,
                             argvGiven: bool, cwdExists: bool)

  datatype Reply = Waits | Runs(lease: Lease) | Ended(task: Task) | Refused(error: StoreError)

  const LAUNCH_TIMEOUT := 300_000_000_000

  function Members(s: seq<GpuId>): set<GpuId> {
    set g | g in s
  }

  /** The GPUs outside `taken`, in their order. */
  function Untaken(gpus: seq<GpuId>, taken: set<GpuId>): seq<GpuId> {
    if gpus == [] then []
    else (if gpus[0] in taken then [] else [gpus[0]]) + Untaken(gpus[1..], taken)
  }

  /** Recover, check the inventory against the stored signature, and classify the GPUs: one transaction. */
  function ViewLocked(db: Tables, env: Env, cfg: Settings): Result<(Tables, View), StoreError> {
    if env.snapshot.None? then Err(BadInventory)
    else
      var snapshot := env.snapshot.value;
      match ValidateSignature(RecoverStale(db, env.now, cfg.timeout, env.procs), snapshot.gpus)
      case Err(e) => Err(e)
      case Ok(seen) =>
        var active := ActiveGpus(seen);
        if !(active <= Members(snapshot.gpus)) then Err(LeaseOutsideInventory)
        else
          var external := snapshot.busy - active;
          Ok((seen, View(external, Untaken(snapshot.gpus, active + external))))
  }

  /** A view, then an allocation in a transaction of its own: a refused plan keeps what the view did. */
  ghost function ScheduleLocked(db: Tables, env: Env, cfg: Settings): (Tables, Option<StoreError>) {
    match ViewLocked(db, env, cfg)
    case Err(e) => (db, Some(e))
    case Ok((seen, view)) =>
      match AllocateBatch(seen, view.free, |env.snapshot.value.gpus|, |view.external|, cfg.reserve, cfg.strict, env.now)
      case Err(e) => (seen, Some(e))
      case Ok(next) => (next, None)
  }

  ghost function ScheduleAndClaim(db: Tables, t: TaskId, self: Pid, env: Env, cfg: Settings): (Tables, Reply) {
    var (scheduled, failure) := ScheduleLocked(db, env, cfg);
    if failure.Some? then (scheduled, Refused(failure.value))
    else
      match ClaimTask(scheduled, t, self, env.procs, env.now)
      case Err(e) => (scheduled, Refused(e))
      case Ok((next, lease)) => (next, if lease.None? then Waits else Runs(lease.value))
  }

  /** First arrival: enqueue, schedule and claim without giving the file lock back. */
  ghost function Enter(db: Tables, a: Arrival, self: Pid, env: Env, cfg: Settings): (Tables, Reply) {
    match AddTask(db, a.t, a.minGpus, a.maxGpus, a.priority, env.now, a.argvGiven, a.cwdExists)
    case Err(e) => (db, Refused(e))
    case Ok(added) => ScheduleAndClaim(added, a.t, self, env, cfg)
  }

  /** One turn of the waiting loop. */
  ghost function Poll(db: Tables, t: TaskId, self: Pid, env: Env, cfg: Settings): (Tables, Reply) {
    if t !in db.tasks then (db, Refused(TaskNotFound))
    else if Terminal(db.tasks[t].status) then (db, Ended(db.tasks[t]))
    else ScheduleAndClaim(db, t, self, env, cfg)
  }

  /** Only a failure the program expects makes an invocation withdraw its unclaimed request; a plan
      refused over some request's size is not one of these. */
  predicate Expected(e: StoreError) {
    !e.PlanRefused?
  }

  predicate Unclaimed(db: Tables, t: TaskId)
    requires t in db.tasks
  {
    || db.tasks[t].status == Queued
    || (db.tasks[t].status == Launching && (!Holding(db, t) || db.leases[t].pid.None?))
  }

  function CleanUp(db: Tables, t: TaskId, now: int): Tables {
    if t !in db.tasks || !Unclaimed(db, t) then db
    else
      match RequestCancel(db, t, now)
      case Err(_) => db
      case Ok((next, _)) => next
  }

  /** Signal the recorded process; when it is gone or cannot be signalled, recover at once, with the
      default launch timeout whatever the session's own. */
  function CancelTask(db: Tables, t: TaskId, delivered: bool, procs: Procs, now: int): Result<Tables, StoreError> {
    match RequestCancel(db, t, now)
    case Err(e) => Err(e)
    case Ok((next, lease)) =>
      if lease.Some? && lease.value.active && lease.value.pid.Some?
         && !(delivered && PidMatches(procs, lease.value.pid, lease.value.pidStart))
      then Ok(RecoverStale(next, now, LAUNCH_TIMEOUT, procs))
      else Ok(next)
  }
}

/** The coordinator object: its locked sections as sequences of store transactions. */
module Coordinators {
  import opened Prelude
  import opened Planner
  import opened StoreSpec
  import opened StateStores
  import opened Coordination

  ghost predicate ForeignKeys(db: Tables) {
    db.leases.Keys <= db.tasks.Keys
  }

  lemma ReleaseKeepsKeys(db: Tables, t: TaskId, now: int)
    requires ForeignKeys(db) && RequestCancel(db, t, now).Ok?
    ensures ForeignKeys(RequestCancel(db, t, now).value.0)
  {
  }

  class Coordinator {
    const store: StateStore
    const reserve: nat
    const strict: bool
    const timeout: int

    constructor (store: StateStore, reserve: nat, strict: bool, timeout: int)
      ensures this.store == store && Cfg() == Settings(reserve, strict, timeout)
    {
      this.store, this.reserve, this.strict, this.timeout := store, reserve, strict, timeout;
    }

    function Cfg(): Settings {
      Settings(reserve, strict, timeout)
    }

    method FreeGpus(gpus: seq<GpuId>, taken: set<GpuId>) returns (free: seq<GpuId>)
      ensures free == Untaken(gpus, taken)
    {
      free := [];
      assert gpus[0..] == gpus;
      for i := 0 to |gpus|
        invariant free + Untaken(gpus[i..], taken) == Untaken(gpus, taken)
      {
        assert gpus[i..][1..] == gpus[i + 1..];
        if gpus[i] !in taken {
          free := free + [gpus[i]];
        }
      }
    }

    method LookLocked(env: Env) returns (r: Result<View, StoreError>)
      requires store.saved.None? && ForeignKeys(store.Db())
      modifies store
      ensures store.saved.None?
      ensures r.Ok? ==> ViewLocked(old(store.Db()), env, Cfg()) == Ok((store.Db(), r.value))
      ensures r.Err? ==> ViewLocked(old(store.Db()), env, Cfg()) == Err(r.error) && store.Db() == old(store.Db())
    {
      if env.snapshot.None? {
        return Err(BadInventory);
      }
      var snapshot := env.snapshot.value;
      var _ := store.Begin();
      var _ := store.RecoverStale(env.now, timeout, env.procs);
      var valid := store.ValidateInventorySignature(snapshot.gpus);
      if valid.Err? {
        store.Rollback();
        return Err(valid.error);
      }
      var active := ActiveGpus(store.Db());
      if !(active <= set g | g in snapshot.gpus) {
        store.Rollback();
        return Err(LeaseOutsideInventory);
      }
      var external := snapshot.busy - active;
      var free := FreeGpus(snapshot.gpus, active + external);
      store.Commit();
      return Ok(View(external, free));
    }

    method Schedule(env: Env) returns (failure: Option<StoreError>)
      requires store.saved.None? && ForeignKeys(store.Db())
      modifies store
      ensures store.saved.None?
      ensures (store.Db(), failure) == ScheduleLocked(old(store.Db()), env, Cfg())
    {
      var view := LookLocked(env);
      if view.Err? {
        return Some(view.error);
      }
      var total, external := |env.snapshot.value.gpus|, |view.value.external|;
      var r := store.AllocateBatch(view.value.free, total, external, reserve, strict, env.now);
      return if r.Ok? then None else Some(r.error);
    }

    method ClaimInside(t: TaskId, self: Pid, env: Env) returns (reply: Reply)
      requires store.saved.None?
      modifies store
      ensures store.saved.None?
      ensures match ClaimTask(old(store.Db()), t, self, env.procs, env.now)
              case Err(e) => reply == Refused(e) && store.Db() == old(store.Db())
              case Ok((next, lease)) => store.Db() == next
                                        && reply == if lease.None? then Waits else Runs(lease.value)
    {
      var _ := store.Begin();
      var claimed := store.ClaimTask(t, self, env.procs, env.now);
      if claimed.Err? {
        store.Rollback();
        return Refused(claimed.error);
      }
      store.Commit();
      return if claimed.value.None? then Waits else Runs(claimed.value.value);
    }

    method Enqueue(a: Arrival, now: int) returns (r: Result<(), StoreError>)
      requires store.saved.None?
      modifies store
      ensures store.saved.None?
      ensures match AddTask(old(store.Db()), a.t, a.minGpus, a.maxGpus, a.priority, now, a.argvGiven, a.cwdExists)
              case Err(e) => r == Err(e) && store.Db() == old(store.Db())
              case Ok(next) => r.Ok? && store.Db() == next
    {
      var _ := store.Begin();
      r := store.AddTask(a.t, a.minGpus, a.maxGpus, a.priority, now, a.argvGiven, a.cwdExists);
      if r.Err? {
        store.Rollback();
      } else {
        store.Commit();
      }
    }

    method EnterRun(a: Arrival, self: Pid, env: Env) returns (reply: Reply)
      requires store.saved.None? && ForeignKeys(store.Db())
      modifies store
      ensures store.saved.None?
      ensures (store.Db(), reply) == Enter(old(store.Db()), a, self, env, Cfg())
    {
      var queued := Enqueue(a, env.now);
      if queued.Err? {
        return Refused(queued.error);
      }
      var failure := Schedule(env);
      if failure.Some? {
        return Refused(failure.value);
      }
      reply := ClaimInside(a.t, self, env);
    }

    method PollRun(t: TaskId, self: Pid, env: Env) returns (reply: Reply)
      requires store.saved.None? && ForeignKeys(store.Db())
      modifies store
      ensures store.saved.None?
      ensures (store.Db(), reply) == Poll(old(store.Db()), t, self, env, Cfg())
    {
      if t !in store.tasks {
        return Refused(TaskNotFound);
      }
      if Terminal(store.tasks[t].status) {
        return Ended(store.tasks[t]);
      }
      var failure := Schedule(env);
      if failure.Some? {
        return Refused(failure.value);
      }
      reply := ClaimInside(t, self, env);
    }

    method Withdraw(t: TaskId, now: int)
      requires store.saved.None?
      modifies store
      ensures store.saved.None?
      ensures store.Db() == CleanUp(old(store.Db()), t, now)
    {
      if t in store.tasks && Unclaimed(store.Db(), t) {
        var _ := store.Begin();
        var r := store.RequestCancel(t, now);
        if r.Err? {
          store.Rollback();
        } else {
          store.Commit();
        }
      }
    }

    method Cancel(t: TaskId, delivered: bool, procs: Procs, now: int) returns (r: Result<(), StoreError>)
      requires store.saved.None? && ForeignKeys(store.Db())
      modifies store
      ensures store.saved.None?
      ensures match CancelTask(old(store.Db()), t, delivered, procs, now)
              case Err(e) => r == Err(e) && store.Db() == old(store.Db())
              case Ok(next) => r.Ok? && store.Db() == next
    {
      var _ := store.Begin();
      var asked := store.RequestCancel(t, now);
      if asked.Err? {
        store.Rollback();
        return Err(asked.error);
      }
      ReleaseKeepsKeys(old(store.Db()), t, now);
      var lease := asked.value;
      if lease.Some? && lease.value.active && lease.value.pid.Some? {
        var signalled := delivered && PidMatches(procs, lease.value.pid, lease.value.pidStart);
        if !signalled {
          var _ := store.RecoverStale(now, LAUNCH_TIMEOUT, procs);
        }
      }
      store.Commit();
      return Ok(());
    }
  }
}

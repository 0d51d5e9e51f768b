/** What becomes of a task when its session polls, gives up or cancels, and when its process dies. */
module Outcomes {
  import opened Prelude
  import opened Planner
  import opened StoreSpec
  import opened StoreInvariant
  import opened Records
  import opened Coordination
  import opened Protocol

  // ---- Polling ------------------------------------------------------------------------------------

  /** What a poll of a known task reports: the final record once the task is over, and only then; its own
      lease, with the task running; a wait while it is queued or being cancelled; or an error. */
  ghost predicate PollSound(db: Tables, next: Tables, t: TaskId, self: Pid, reply: Reply) {
    && t in db.tasks && t in next.tasks
    && match reply
       case Ended(k) => next == db && k == db.tasks[t] && Terminal(k.status)
       case Runs(lease) =>
         && Holding(next, t) && next.leases[t] == lease && lease.pid == Some(self) && lease.pidStart.Some?
         && next.tasks[t].status == Running
       case Waits =>
         next.tasks[t].status == Queued || next.tasks[t].status == Cancelling || Terminal(next.tasks[t].status)
       case Refused(_) => !Terminal(db.tasks[t].status)
  }

  lemma ClaimReply(db: Tables, t: TaskId, self: Pid, procs: Procs, now: int)
    requires Consistent(db) && t in db.tasks && self >= 1 && self in procs
    ensures match ClaimTask(db, t, self, procs, now)
            case Err(_) => true
            case Ok((next, lease)) =>
              && next == Step(db, Claim(t, self, procs, now)) && t in next.tasks
              && if lease.None? then
                   next == db && (db.tasks[t].status == Queued || db.tasks[t].status == Cancelling
                                  || Terminal(db.tasks[t].status))
                 else Holding(next, t) && next.leases[t] == lease.value && lease.value.pid == Some(self)
                      && lease.value.pidStart.Some? && next.tasks[t].status == Running
  {
    assert Shaped(db, t);
  }

  lemma PollOutcome(db: Tables, t: TaskId, self: Pid, env: Env, cfg: Settings)
    requires Consistent(db) && Inside(db) && t in db.tasks && self >= 1 && self in env.procs
    ensures var (next, reply) := Poll(db, t, self, env, cfg);
            PollSound(db, next, t, self, reply) && (Terminal(db.tasks[t].status) <==> reply.Ended?)
  {
    if !Terminal(db.tasks[t].status) {
      var ops := ScheduleIsRun(db, env, cfg);
      RunKeeps(db, ops);
      var mid := ScheduleLocked(db, env, cfg).0;
      assert TaskEvolves(db.tasks[t], mid.tasks[t]);
      PollTurn(db, mid, ScheduleLocked(db, env, cfg).1, t, self, env, cfg);
    }
  }

  lemma PollTurn(db: Tables, mid: Tables, failure: Option<StoreError>, t: TaskId, self: Pid, env: Env, cfg: Settings)
    requires Consistent(mid) && t in db.tasks && t in mid.tasks && !Terminal(db.tasks[t].status)
    requires self >= 1 && self in env.procs && (mid, failure) == ScheduleLocked(db, env, cfg)
    ensures var (next, reply) := ScheduleAndClaim(db, t, self, env, cfg);
            PollSound(db, next, t, self, reply) && !reply.Ended?
  {
    ClaimReply(mid, t, self, env.procs, env.now);
  }

  // ---- Giving up ----------------------------------------------------------------------------------

  /** A session that runs out of patience, or fails, ends a task that no process has claimed: cancelled with
      exit code 130, its GPUs given back. Where the task was claimed, running out of patience marks it for
      cancellation, and a failure leaves it alone. */
  lemma GivingUp(w: World, t: TaskId, now: int)
    requires Inv(w) && t in w.db.tasks
    ensures var k := w.db.tasks[t];
            var expired, failed := Next(w, TimesOut(t, now)).db, Next(w, Withdraws(t, now)).db;
            && t in expired.tasks && t in failed.tasks
            && (k.status == Queued || k.status == Launching ==>
                 && failed == expired && expired.tasks[t] == CancelledEarly(k, now)
                 && !Holding(expired, t) && GpusOf(expired, t) == [])
            && (k.status != Queued && k.status != Launching ==>
                 && failed == w.db && expired.leases == w.db.leases && expired.rows == w.db.rows
                 && expired.tasks[t] == if k.status == Running
                                        then k.(status := Cancelling, error := Some("cancel requested")) else k)
  {
    CancelRecords(w.db, t, now);
    assert Shaped(w.db, t);
    StepKeeps(w.db, Cancel(t, now));
    var expired := Step(w.db, Cancel(t, now));
    assert Shaped(expired, t);
    if !Holding(expired, t) {
      NoRowsNoGpus(expired.rows, t);
    }
  }

  /** A cancellation whose signal reaches the recorded process recovers nothing: it is the cancel request
      alone. */
  lemma CancelSparesOthers(db: Tables, t: TaskId, procs: Procs, now: int, p: Pid)
    requires Consistent(db) && Holding(db, t) && db.leases[t].pid == Some(p)
    requires p >= 1 && p in procs && db.leases[t].pidStart == Some(procs[p])
    ensures CancelTask(db, t, true, procs, now) == Ok(Step(db, Cancel(t, now)))
  {
    assert Shaped(db, t);
  }

  /** Cancelling a task that is over changes nothing, and recovers nobody else either. */
  lemma CancelOfOver(db: Tables, t: TaskId, delivered: bool, procs: Procs, now: int)
    requires Consistent(db) && t in db.tasks && Terminal(db.tasks[t].status)
    ensures CancelTask(db, t, delivered, procs, now) == Ok(db)
  {
    assert Shaped(db, t);
  }

  lemma UnknownToSections(db: Tables, t: TaskId, self: Pid, env: Env, cfg: Settings, delivered: bool)
    requires t !in db.tasks
    ensures Poll(db, t, self, env, cfg) == (db, Refused(TaskNotFound))
    ensures CancelTask(db, t, delivered, env.procs, env.now) == Err(TaskNotFound)
    ensures CleanUp(db, t, env.now) == db
  {
  }

  // ---- When the process dies ----------------------------------------------------------------------

  lemma StepKeepsIdentity(db: Tables, op: Op, t: TaskId)
    requires Consistent(db) && Holding(db, t) && db.leases[t].pid.Some? && Holding(Step(db, op), t)
    requires !(op.Bind? && op.t == t)
    ensures Step(db, op).leases[t].pid == db.leases[t].pid && Step(db, op).leases[t].pidStart == db.leases[t].pidStart
  {
    if op.Allocate? {
      AllocateKeepsLease(db, op, t);
    }
  }

  lemma {:induction false} RunKeepsIdentity(db: Tables, ops: seq<Op>, t: TaskId)
    requires Consistent(db) && Holding(db, t) && db.leases[t].pid.Some? && Holding(Run(db, ops), t)
    requires forall op :: op in ops ==> !(op.Bind? && op.t == t)
    ensures Run(db, ops).leases[t].pid == db.leases[t].pid && Run(db, ops).leases[t].pidStart == db.leases[t].pidStart
    decreases |ops|
  {
    if ops != [] {
      var next := Step(db, ops[0]);
      assert ops[0] in ops;
      StepKeeps(db, ops[0]);
      RunKeeps(next, ops[1..]);
      assert LeaseEvolves(db, next, t) && LeaseEvolves(next, Run(next, ops[1..]), t);
      StepKeepsIdentity(db, ops[0], t);
      RunKeepsIdentity(next, ops[1..], t);
    }
  }

  lemma EventKeepsIdentity(w: World, e: Event, t: TaskId)
    requires Inv(w) && Holding(w.db, t) && w.db.leases[t].pid.Some? && Holding(Next(w, e).db, t)
    requires !(e.Binds? && e.t == t)
    ensures Next(w, e).db.leases[t].pid == w.db.leases[t].pid
    ensures Next(w, e).db.leases[t].pidStart == w.db.leases[t].pidStart
  {
    if e.Binds? {
      StepKeepsIdentity(w.db, Bind(e.t, e.supervisor, e.child, StartTime(w.procs, e.child)), t);
    } else if e.Finishes? {
      StepKeepsIdentity(w.db, Finish(e.t, e.pid, e.start, e.exitCode, e.error, e.now), t);
    } else {
      var ops := SectionIsRun(w.db, w.procs, e);
      assert forall op :: op in ops ==> Honest(op, w.procs);
      RunKeepsIdentity(w.db, ops, t);
    }
  }

  lemma {:induction false} EventsKeepIdentity(w: World, events: seq<Event>, t: TaskId)
    requires Inv(w) && Holding(w.db, t) && w.db.leases[t].pid.Some? && Holding(After(w, events).db, t)
    requires forall e :: e in events ==> !(e.Binds? && e.t == t)
    ensures After(w, events).db.leases[t].pid == w.db.leases[t].pid
    ensures After(w, events).db.leases[t].pidStart == w.db.leases[t].pidStart
    decreases |events|
  {
    if events != [] {
      var next := Next(w, events[0]);
      assert events[0] in events;
      EventKeeps(w, events[0]);
      ProtocolKeeps(next, events[1..]);
      assert LeaseEvolves(w.db, next.db, t) && LeaseEvolves(next.db, After(next, events[1..]).db, t);
      EventKeepsIdentity(w, events[0], t);
      EventsKeepIdentity(next, events[1..], t);
    }
  }

  lemma ExitLoses(w: World, dead: Pid)
    requires PastStarts(w)
    ensures var gone := Next(w, Exits(dead));
            gone.db == w.db && PastStarts(gone) && forall start :: !PidMatches(gone.procs, Some(dead), start)
  {
  }

  lemma LostIsCollected(w: World, events: seq<Event>, cfg: Settings, now: int, t: TaskId)
    requires Inv(w) && PastStarts(w) && Holding(w.db, t) && w.db.leases[t].pid.Some?
    requires !PidMatches(w.procs, w.db.leases[t].pid, w.db.leases[t].pidStart)
    requires forall e :: e in events ==> !(e.Binds? && e.t == t)
    ensures Over(Next(After(w, events), Collects(cfg, now)).db, t)
  {
    StaysLost(w, events, t);
    CollectLost(After(w, events), cfg, now, t);
  }

  lemma CollectLost(w: World, cfg: Settings, now: int, t: TaskId)
    requires Consistent(w.db) && t in w.db.leases
    requires Holding(w.db, t) ==>
               w.db.leases[t].pid.Some? && !PidMatches(w.procs, w.db.leases[t].pid, w.db.leases[t].pidStart)
    ensures Over(Next(w, Collects(cfg, now)).db, t)
  {
    CollectEnds(w.db, now, cfg.timeout, w.procs, t);
  }

  ghost predicate Over(db: Tables, t: TaskId) {
    t in db.tasks && Terminal(db.tasks[t].status) && !Holding(db, t) && GpusOf(db, t) == []
  }

  /** A lease outlives its process only until the next collection: once the recorded process has exited,
      whatever happens in between, other than a hand-over of this lease, and whoever gets the PID next, a
      collection leaves the task over and without GPUs. */
  lemma CrashReturnsGpus(w: World, dead: Pid, events: seq<Event>, cfg: Settings, now: int, t: TaskId)
    requires Inv(w) && PastStarts(w) && Holding(w.db, t) && w.db.leases[t].pid == Some(dead)
    requires forall e :: e in events ==> !(e.Binds? && e.t == t)
    ensures Over(Next(After(Next(w, Exits(dead)), events), Collects(cfg, now)).db, t)
  {
    ExitLoses(w, dead);
    LostIsCollected(Next(w, Exits(dead)), events, cfg, now, t);
  }

  /** A lease whose process is gone is either released later on or still names that process. */
  lemma StaysLost(w: World, events: seq<Event>, t: TaskId)
    requires Inv(w) && PastStarts(w) && Holding(w.db, t) && w.db.leases[t].pid.Some?
    requires !PidMatches(w.procs, w.db.leases[t].pid, w.db.leases[t].pidStart)
    requires forall e :: e in events ==> !(e.Binds? && e.t == t)
    ensures var late := After(w, events);
            && Consistent(late.db) && t in late.db.leases
            && (Holding(late.db, t) ==>
                  && late.db.leases[t].pid.Some?
                  && !PidMatches(late.procs, late.db.leases[t].pid, late.db.leases[t].pidStart))
  {
    DeadStaysDead(w, events, t);
    ProtocolKeeps(w, events);
    assert LeaseEvolves(w.db, After(w, events).db, t);
    if Holding(After(w, events).db, t) {
      EventsKeepIdentity(w, events, t);
    }
  }

  lemma CollectEnds(db: Tables, now: int, timeout: int, procs: Procs, t: TaskId)
    requires Consistent(db) && t in db.leases
    requires Holding(db, t) ==> db.leases[t].pid.Some? && !PidMatches(procs, db.leases[t].pid, db.leases[t].pidStart)
    ensures Over(RecoverStale(db, now, timeout, procs), t)
  {
    assert Shaped(db, t);
    RecoverKeeps(db, now, timeout, procs);
    var end := RecoverStale(db, now, timeout, procs);
    assert Shaped(end, t);
    NoRowsNoGpus(end.rows, t);
  }
}

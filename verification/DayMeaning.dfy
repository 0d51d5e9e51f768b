/** What a day's report counts, in terms of the recorded events and samples themselves: at every tick the
    one recorded last, by time and then by id, decides. */
module DayMeaning {
  import opened Prelude
  import opened Sorting
  import opened Bars
  import Codex = CodexLane
  import Gpu = GpuLane
  import opened DayReport

  // ---- Sessions -----------------------------------------------------------------------------------

  /** Of a session's events recorded by tick `t`, `e` comes last by time, then by id. */
  ghost predicate LatestEvent(events: seq<Codex.Event>, e: Codex.Event, t: int) {
    && e in events && e.at <= t
    && forall f :: f in events && f != e && f.at <= t ==> f.at < e.at || (f.at == e.at && f.id < e.id)
  }

  /** No event of the session comes after tick `t`. */
  ghost predicate SilentAfter(events: seq<Codex.Event>, t: int) {
    forall f :: f in events ==> f.at <= t
  }

  lemma {:induction false} LastBy(times: seq<int>, t: int) returns (i: nat)
    requires exists k :: 0 <= k < |times| && times[k] <= t
    ensures i < |times| && times[i] <= t && forall k :: i < k < |times| ==> t < times[k]
  {
    var n := |times| - 1;
    if times[n] <= t {
      i := n;
    } else {
      var k :| 0 <= k < |times| && times[k] <= t;
      assert times[..n][k] <= t;
      i := LastBy(times[..n], t);
      assert forall j :: i < j < n ==> times[..n][j] == times[j];
    }
  }

  lemma LatestAmong(rows: seq<Codex.Event>, events: seq<Codex.Event>, e: Codex.Event, t: int) returns (i: nat)
    requires SortedBy(EventOrder, rows) && (forall x :: x in rows <==> x in events) && LatestEvent(events, e, t)
    ensures i < |rows| && rows[i] == e && (i + 1 < |rows| ==> t < rows[i + 1].at)
    ensures i + 1 == |rows| <==> SilentAfter(events, t)
  {
    assert e in rows;
    var k :| 0 <= k < |rows| && rows[k] == e;
    var times := seq(|rows|, j requires 0 <= j < |rows| => rows[j].at);
    assert times[k] <= t;
    i := LastBy(times, t);
    assert rows[i].at == times[i] && rows[i] in events;
    assert k <= i && (k < i ==> EventOrder(rows[k], rows[i]));
    if i + 1 == |rows| {
      forall f | f in events ensures f.at <= t {
        assert f in rows;
        var j :| 0 <= j < |rows| && rows[j] == f;
      }
    } else {
      assert rows[i + 1] in rows && times[i + 1] == rows[i + 1].at;
    }
  }

  /** The deciding event is the last one by tick `t` in the order in which the report reads them. */
  lemma LatestInOrder(events: seq<Codex.Event>, e: Codex.Event, t: int) returns (i: nat)
    requires LatestEvent(events, e, t)
    ensures var rows := Sort(EventOrder, events);
            && i < |rows| && rows[i] == e && (i + 1 < |rows| ==> t < rows[i + 1].at)
            && (i + 1 == |rows| <==> SilentAfter(events, t))
  {
    SortSorted(EventOrder, events);
    MultisetMembers(Sort(EventOrder, events), events);
    i := LatestAmong(Sort(EventOrder, events), events, e, t);
  }

  /** Inside the day the tick belongs to the session's lane. */
  lemma TickOfSession(events: seq<Codex.Event>, day: Day, states: set<Codex.State>, t: int)
    requires events != []
    ensures t in SessionTicks(events, day, states)
            <==> && day.start <= t < day.end && t < day.asOf && SessionPoints(events)[0].at <= t
                 && Codex.Doing(SessionPoints(events), day.stall, t).Some?
                 && Codex.Doing(SessionPoints(events), day.stall, t).value.state in states
  {
  }

  lemma DoingNow(events: seq<Codex.Event>, day: Day, e: Codex.Event, t: int) returns (i: nat)
    requires day.stall > 0 && LatestEvent(events, e, t)
    ensures var rows := Sort(EventOrder, events);
            && i < |rows| && rows[i] == e && (i + 1 < |rows| ==> t < rows[i + 1].at)
            && (i + 1 == |rows| <==> SilentAfter(events, t))
            && Codex.InOrder(Codex.Points(rows)) && SessionPoints(events)[0].at <= t
  {
    i := LatestInOrder(events, e, t);
    SessionInOrder(events);
    FirstEvent(events);
  }

  /** The session counts as active at a tick of the day exactly when the latest event ends a tool, or names
      an active phase without starting a tool or ending a turn, and the session has not been silent for the
      stall time since, unless its tool still runs. */
  lemma ActiveTickExactly(events: seq<Codex.Event>, day: Day, e: Codex.Event, t: int)
    requires day.stall > 0 && LatestEvent(events, e, t)
    ensures t in SessionTicks(events, day, {Codex.Active})
            <==> && day.start <= t < day.end && t < day.asOf
                 && (e.kind == Codex.PostTool
                     || (e.kind !in {Codex.PreTool, Codex.Stop, Codex.TurnEnd}
                         && e.phase !in {Codex.WaitingTool, Codex.WaitingUser, Codex.SuspectedStall, Codex.IdlePhase}))
                 && (!SilentAfter(events, t) || t < e.at + day.stall || (e.kind != Codex.PostTool && e.toolActive))
  {
    var i := DoingNow(events, day, e, t);
    var rows := Sort(EventOrder, events);
    TickOfSession(events, day, {Codex.Active}, t);
    ShownNow(rows, day.stall, i, t);
  }

  /** It counts as waiting exactly when the latest event starts a tool, ends a turn, or names a waiting phase. */
  lemma WaitingTickExactly(events: seq<Codex.Event>, day: Day, e: Codex.Event, t: int)
    requires day.stall > 0 && LatestEvent(events, e, t)
    ensures t in SessionTicks(events, day, Codex.WAITING)
            <==> && day.start <= t < day.end && t < day.asOf
                 && (e.kind in {Codex.PreTool, Codex.Stop, Codex.TurnEnd}
                     || (e.kind != Codex.PostTool && e.phase in {Codex.WaitingTool, Codex.WaitingUser}))
  {
    var i := DoingNow(events, day, e, t);
    var rows := Sort(EventOrder, events);
    TickOfSession(events, day, Codex.WAITING, t);
    ShownNow(rows, day.stall, i, t);
  }

  /** It counts as stalled exactly when the latest event says so, or when nothing has followed an event that
      left it active, with no tool running, for the stall time. */
  lemma StalledTickExactly(events: seq<Codex.Event>, day: Day, e: Codex.Event, t: int)
    requires day.stall > 0 && LatestEvent(events, e, t)
    ensures t in SessionTicks(events, day, {Codex.Stalled})
            <==> && day.start <= t < day.end && t < day.asOf
                 && ((e.kind !in {Codex.PreTool, Codex.Stop, Codex.TurnEnd, Codex.PostTool}
                      && e.phase == Codex.SuspectedStall)
                     || (SilentAfter(events, t) && e.at + day.stall <= t
                         && (e.kind == Codex.PostTool
                             || (e.kind !in {Codex.PreTool, Codex.Stop, Codex.TurnEnd} && !e.toolActive
                                 && e.phase !in {Codex.WaitingTool, Codex.WaitingUser, Codex.IdlePhase}))))
  {
    var i := DoingNow(events, day, e, t);
    var rows := Sort(EventOrder, events);
    TickOfSession(events, day, {Codex.Stalled}, t);
    ShownNow(rows, day.stall, i, t);
  }

  lemma ShownNow(rows: seq<Codex.Event>, stall: int, i: nat, t: int)
    requires Codex.InOrder(Codex.Points(rows)) && stall > 0 && i < |rows| && rows[i].at <= t
    requires i + 1 < |rows| ==> t < rows[i + 1].at
    ensures Codex.Doing(Codex.Points(rows), stall, t).Some?
    ensures var e, state := rows[i], Codex.Doing(Codex.Points(rows), stall, t).value.state;
            var silent := i + 1 == |rows| && e.at + stall <= t;
            match e.kind
            case Stop => state == Codex.OnUser
            case TurnEnd => state == Codex.OnUser
            case PreTool => state == Codex.OnTool
            case PostTool => state == if silent then Codex.Stalled else Codex.Active
            case _ =>
              match e.phase
              case WaitingTool => state == Codex.OnTool
              case WaitingUser => state == Codex.OnUser
              case SuspectedStall => state == Codex.Stalled
              case IdlePhase => state == Codex.Resting
              case _ => state == if silent && !e.toolActive then Codex.Stalled else Codex.Active
  {
    Codex.WaitsAfter(rows, stall, i, t);
    if rows[i].kind == Codex.PostTool {
      Codex.ActsAfterTool(rows, stall, i, t);
    } else if rows[i].kind !in {Codex.PreTool, Codex.Stop, Codex.TurnEnd} {
      Codex.ShowsNamedPhase(rows, stall, i, t);
    }
  }

  // ---- GPUs ---------------------------------------------------------------------------------------

  /** Of a GPU's samples taken by tick `t`, `s` comes last by time, then by id. */
  ghost predicate LatestSample(samples: seq<Gpu.Sample>, s: Gpu.Sample, t: int) {
    && s in samples && s.at <= t
    && forall r :: r in samples && r != s && r.at <= t ==> r.at < s.at || (r.at == s.at && r.id < s.id)
  }

  lemma LatestAmongSamples(rows: seq<Gpu.Sample>, samples: seq<Gpu.Sample>, s: Gpu.Sample, t: int) returns (i: nat)
    requires SortedBy(SampleOrder, rows) && (forall x :: x in rows <==> x in samples) && LatestSample(samples, s, t)
    ensures i < |rows| && rows[i] == s && (i + 1 < |rows| ==> t < rows[i + 1].at)
  {
    assert s in rows;
    var k :| 0 <= k < |rows| && rows[k] == s;
    var times := seq(|rows|, j requires 0 <= j < |rows| => rows[j].at);
    assert times[k] <= t;
    i := LastBy(times, t);
    assert rows[i].at == times[i] && rows[i] in samples;
    assert k <= i && (k < i ==> SampleOrder(rows[k], rows[i]));
    assert i + 1 < |rows| ==> times[i + 1] == rows[i + 1].at;
  }

  lemma LatestSampleInOrder(samples: seq<Gpu.Sample>, s: Gpu.Sample, t: int) returns (i: nat)
    requires LatestSample(samples, s, t)
    ensures var rows := Sort(SampleOrder, samples);
            i < |rows| && rows[i] == s && (i + 1 < |rows| ==> t < rows[i + 1].at)
  {
    SortSorted(SampleOrder, samples);
    MultisetMembers(Sort(SampleOrder, samples), samples);
    i := LatestAmongSamples(Sort(SampleOrder, samples), samples, s, t);
  }

  /** What is known of a GPU at a tick is the latest sample, word for word, and nothing but its number once
      it is as old as the sample gap. */
  lemma LatestSampleDecides(samples: seq<Gpu.Sample>, gap: Option<int>, s: Gpu.Sample, t: int)
    requires LatestSample(samples, s, t) && (gap.Some? ==> gap.value > 0)
    ensures Gpu.Known(Sort(SampleOrder, samples), gap, t)
            == Some(if gap.None? || t < s.at + gap.value
                    then Meta(s.state, s.taskName, s.attribution, s.process, s.pid, s.id)
                    else Meta(Unknown, "", "inferred", "", None, s.id))
    ensures Sort(SampleOrder, samples)[0].at <= t
  {
    var rows := Sort(SampleOrder, samples);
    var i := LatestSampleInOrder(samples, s, t);
    SamplesInOrder(samples);
    FirstSample(samples);
    Gpu.KnownFrom(rows, gap, i, t);
  }

  /** A GPU counts as training, idle and so on at a tick of the day exactly when the latest sample says so and
      is younger than the sample gap. */
  lemma GpuTickExactly(samples: seq<Gpu.Sample>, day: Day, state: GpuState, s: Gpu.Sample, t: int)
    requires LatestSample(samples, s, t) && (day.gap.Some? ==> day.gap.value > 0) && state != Unknown
    ensures t in GpuTicks(samples, day, state)
            <==> && day.start <= t < day.end && t < day.asOf
                 && s.state == state && (day.gap.None? || t < s.at + day.gap.value)
  {
    LatestSampleDecides(samples, day.gap, s, t);
  }

  // ---- The whole day ------------------------------------------------------------------------------

  lemma {:induction false} ActiveInside(sessions: seq<seq<Codex.Event>>, day: Day, t: int)
    requires t in SomeActive(sessions, day)
    ensures day.start <= t < day.end && t < day.asOf
  {
    ActiveInDay(sessions, day);
  }

  lemma {:induction false} TrainingInside(gpus: seq<seq<Gpu.Sample>>, day: Day, t: int)
    requires t in SomeTraining(gpus, day)
    ensures day.start <= t < day.end && t < day.asOf
  {
    if t !in GpuTicks(gpus[|gpus| - 1], day, Training) {
      TrainingInside(gpus[..|gpus| - 1], day, t);
    }
  }

  lemma {:induction false} ActiveSession(sessions: seq<seq<Codex.Event>>, day: Day, t: int) returns (k: nat)
    requires t in SomeActive(sessions, day)
    ensures k < |sessions| && t in SessionTicks(sessions[k], day, {Codex.Active})
  {
    var n := |sessions| - 1;
    if t in SessionTicks(sessions[n], day, {Codex.Active}) {
      k := n;
    } else {
      k := ActiveSession(sessions[..n], day, t);
    }
  }

  lemma ActiveGrows(sessions: seq<seq<Codex.Event>>, day: Day)
    requires sessions != []
    ensures SomeActive(sessions, day)
            == SomeActive(sessions[..|sessions| - 1], day)
               + SessionTicks(sessions[|sessions| - 1], day, {Codex.Active})
  {
  }

  lemma {:induction false} SessionActive(sessions: seq<seq<Codex.Event>>, day: Day, t: int, k: nat)
    requires k < |sessions| && t in SessionTicks(sessions[k], day, {Codex.Active})
    ensures t in SomeActive(sessions, day)
  {
    if k < |sessions| - 1 {
      SessionActive(sessions[..|sessions| - 1], day, t, k);
    }
    ActiveGrows(sessions, day);
  }

  lemma {:induction false} TrainingGpu(gpus: seq<seq<Gpu.Sample>>, day: Day, t: int) returns (k: nat)
    requires t in SomeTraining(gpus, day)
    ensures k < |gpus| && t in GpuTicks(gpus[k], day, Training)
  {
    var n := |gpus| - 1;
    if t in GpuTicks(gpus[n], day, Training) {
      k := n;
    } else {
      k := TrainingGpu(gpus[..n], day, t);
    }
  }

  lemma TrainingGrows(gpus: seq<seq<Gpu.Sample>>, day: Day)
    requires gpus != []
    ensures SomeTraining(gpus, day)
            == SomeTraining(gpus[..|gpus| - 1], day) + GpuTicks(gpus[|gpus| - 1], day, Training)
  {
  }

  lemma {:induction false} GpuTraining(gpus: seq<seq<Gpu.Sample>>, day: Day, t: int, k: nat)
    requires k < |gpus| && t in GpuTicks(gpus[k], day, Training)
    ensures t in SomeTraining(gpus, day)
  {
    if k < |gpus| - 1 {
      GpuTraining(gpus[..|gpus| - 1], day, t, k);
    }
    TrainingGrows(gpus, day);
  }

  /** The ticks that the overlap counts lie in the day and before the moment of the report, and are exactly
      those at which some session counts as active and some GPU as training. */
  lemma OverlapTickExactly(sessions: seq<seq<Codex.Event>>, gpus: seq<seq<Gpu.Sample>>, day: Day, t: int)
    ensures t in SomeActive(sessions, day) * SomeTraining(gpus, day)
            <==> && (exists k :: 0 <= k < |sessions| && t in SessionTicks(sessions[k], day, {Codex.Active}))
                 && (exists k :: 0 <= k < |gpus| && t in GpuTicks(gpus[k], day, Training))
    ensures t in SomeActive(sessions, day) || t in SomeTraining(gpus, day) ==>
              day.start <= t < day.end && t < day.asOf
  {
    if t in SomeActive(sessions, day) {
      var k := ActiveSession(sessions, day, t);
      ActiveInside(sessions, day, t);
    }
    if t in SomeTraining(gpus, day) {
      var k := TrainingGpu(gpus, day, t);
      TrainingInside(gpus, day, t);
    }
    if k :| 0 <= k < |sessions| && t in SessionTicks(sessions[k], day, {Codex.Active}) {
      SessionActive(sessions, day, t, k);
    }
    if k :| 0 <= k < |gpus| && t in GpuTicks(gpus[k], day, Training) {
      GpuTraining(gpus, day, t, k);
    }
  }
}

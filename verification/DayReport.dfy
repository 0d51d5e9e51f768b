/** The daily report: every session and GPU lane is tiled inside the day, the summary counts the ticks
    of the tiles, and the overlap is the time during which some session is active while some GPU is
    training. */
module DayReport {
  import opened Prelude
  import opened Sorting
  import opened Intervals
  import opened Tiling
  import opened Bars
  import opened BarTheorems
  import Codex = CodexLane
  import Gpu = GpuLane

  datatype ReportError = StallNotPositive | GapNotPositive | MergeGapNegative

  datatype Summary = Summary(active: int, waiting: int, stalled: int, training: int, idle: int, overlap: int)

  datatype Report = Report(codex: seq<seq<Span<Codex.Note>>>, gpu: seq<seq<Bar>>, summary: Summary)

  const NOTHING := Report([], [], Summary(0, 0, 0, 0, 0, 0))

  /** The day, the moment of the report, and the thresholds. */
  datatype Day = Day(start: int, end: int, asOf: int, stall: int, gap: Option<int>, mergeGap: int) {
    function Until(): int {
      Min(end, asOf)
    }

    function CodexScope(): Codex.Scope {
      Codex.Scope(start, Until(), asOf, stall)
    }

    function GpuScope(): Gpu.Scope {
      Gpu.Scope(start, Until(), asOf, gap)
    }

    /** Where a lane begins whose first observation is at `first`, and where it ends. */
    function From(first: int): int {
      Max(start, first)
    }

    function To(first: int): int {
      Max(From(first), Until())
    }
  }

  // ---- Lanes in time order ------------------------------------------------------------------

  predicate EventOrder(a: Codex.Event, b: Codex.Event) {
    a.at < b.at || (a.at == b.at && a.id <= b.id)
  }

  predicate SampleOrder(a: Gpu.Sample, b: Gpu.Sample) {
    a.at < b.at || (a.at == b.at && a.id <= b.id)
  }

  function SessionPoints(events: seq<Codex.Event>): seq<Codex.Point> {
    Codex.Points(Sort(EventOrder, events))
  }

  lemma SessionInOrder(events: seq<Codex.Event>)
    ensures Codex.InOrder(SessionPoints(events))
  {
    SortSorted(EventOrder, events);
    var rows := Sort(EventOrder, events);
    forall i, j | 0 <= i < j < |rows| ensures SessionPoints(events)[i].at <= SessionPoints(events)[j].at {
      assert EventOrder(rows[i], rows[j]);
    }
  }

  lemma SamplesInOrder(samples: seq<Gpu.Sample>)
    ensures Gpu.InOrder(Sort(SampleOrder, samples))
  {
    SortSorted(SampleOrder, samples);
    var rows := Sort(SampleOrder, samples);
    forall i, j | 0 <= i < j < |rows| ensures rows[i].at <= rows[j].at {
      assert SampleOrder(rows[i], rows[j]);
    }
  }

  // ---- What the summary should say ----------------------------------------------------------

  /** The ticks of the day that one session spends in the given states. */
  ghost function SessionTicks(events: seq<Codex.Event>, day: Day, states: set<Codex.State>): set<int> {
    if events == [] then {} else
    var points := SessionPoints(events);
    Codex.In(points, day.stall, states, day.From(points[0].at), day.To(points[0].at))
  }

  /** The ticks of the day on which one GPU is known to be in the given state. */
  ghost function GpuTicks(samples: seq<Gpu.Sample>, day: Day, state: GpuState): set<int> {
    if samples == [] then {} else
    var rows := Sort(SampleOrder, samples);
    Gpu.In(rows, day.gap, state, day.From(rows[0].at), day.To(rows[0].at))
  }

  /** The lane's segments follow each other without a hole from the session's first event, or the start
      of the day, to the end, and each shows what the session is doing at its ticks. */
  ghost predicate SessionShown(lane: seq<Span<Codex.Note>>, events: seq<Codex.Event>, day: Day)
    requires events != []
  {
    var points := SessionPoints(events);
    Codex.Tiles(lane, points, day.stall, day.From(points[0].at), day.To(points[0].at))
  }

  /** The lane's bars are the coalesced tiles of what is known of the GPU, without a hole. */
  ghost predicate GpuShown(lane: seq<Bar>, samples: seq<Gpu.Sample>, day: Day)
    requires samples != []
  {
    var rows := Sort(SampleOrder, samples);
    var lo, hi := day.From(rows[0].at), day.To(rows[0].at);
    && (exists tiles :: Gpu.Tiles(tiles, rows, day.gap, lo, hi) && lane == Coalesced(tiles, day.mergeGap))
    && Lane(lane, lo, hi) && Accounted(lane) == hi - lo
  }

  /** One lane for each session that has some time in the day, in the sessions' order. */
  ghost predicate SessionLanes(lanes: seq<seq<Span<Codex.Note>>>, sessions: seq<seq<Codex.Event>>, day: Day) {
    if sessions == [] then lanes == []
    else
      var n := |sessions| - 1;
      var events := sessions[n];
      && events != []
      && var first := SessionPoints(events)[0].at;
         if day.From(first) == day.To(first) then SessionLanes(lanes, sessions[..n], day)
         else lanes != [] && SessionShown(lanes[|lanes| - 1], events, day)
              && SessionLanes(lanes[..|lanes| - 1], sessions[..n], day)
  }

  /** One lane for each GPU that has some time in the day, in the GPUs' order. */
  ghost predicate GpuLanesShown(lanes: seq<seq<Bar>>, gpus: seq<seq<Gpu.Sample>>, day: Day) {
    if gpus == [] then lanes == []
    else
      var n := |gpus| - 1;
      var samples := gpus[n];
      && samples != []
      && var first := Sort(SampleOrder, samples)[0].at;
         if day.From(first) == day.To(first) then GpuLanesShown(lanes, gpus[..n], day)
         else lanes != [] && GpuShown(lanes[|lanes| - 1], samples, day)
              && GpuLanesShown(lanes[..|lanes| - 1], gpus[..n], day)
  }

  ghost predicate NoneEmpty<T>(groups: seq<seq<T>>) {
    forall g :: g in groups ==> g != []
  }

  /** Total over all sessions, counting parallel sessions separately. */
  ghost function SessionTotal(sessions: seq<seq<Codex.Event>>, day: Day, states: set<Codex.State>): int
  {
    if sessions == [] then 0
    else SessionTotal(sessions[..|sessions| - 1], day, states) + |SessionTicks(sessions[|sessions| - 1], day, states)|
  }

  ghost function GpuTotal(gpus: seq<seq<Gpu.Sample>>, day: Day, state: GpuState): int
  {
    if gpus == [] then 0
    else GpuTotal(gpus[..|gpus| - 1], day, state) + |GpuTicks(gpus[|gpus| - 1], day, state)|
  }

  /** The ticks on which at least one session is active. */
  ghost function SomeActive(sessions: seq<seq<Codex.Event>>, day: Day): set<int>
  {
    if sessions == [] then {}
    else SomeActive(sessions[..|sessions| - 1], day) + SessionTicks(sessions[|sessions| - 1], day, {Codex.Active})
  }

  /** The ticks on which at least one GPU is training. */
  ghost function SomeTraining(gpus: seq<seq<Gpu.Sample>>, day: Day): set<int>
  {
    if gpus == [] then {}
    else SomeTraining(gpus[..|gpus| - 1], day) + GpuTicks(gpus[|gpus| - 1], day, Training)
  }

  lemma {:induction false} ActiveInDay(sessions: seq<seq<Codex.Event>>, day: Day)
    ensures SomeActive(sessions, day) <= Ticks(day.start, day.Until())
  {
    if sessions != [] {
      ActiveInDay(sessions[..|sessions| - 1], day);
    }
  }

  // ---- Building the report ------------------------------------------------------------------

  ghost predicate CodexSoFar(y: Codex.Tally, sessions: seq<seq<Codex.Event>>, day: Day)
  {
    && y.active == SessionTotal(sessions, day, {Codex.Active})
    && y.waiting == SessionTotal(sessions, day, Codex.WAITING)
    && y.stalled == SessionTotal(sessions, day, {Codex.Stalled})
    && Cover(y.activeIntervals) == SomeActive(sessions, day)
    && Sum(Lengths(y.activeIntervals)) == y.active
  }

  ghost predicate GpuSoFar(y: Gpu.Tally, gpus: seq<seq<Gpu.Sample>>, day: Day)
  {
    && y.trainingTotal == GpuTotal(gpus, day, Training)
    && y.idleTotal == GpuTotal(gpus, day, Idle)
    && Cover(y.training) == SomeTraining(gpus, day)
    && Sum(Lengths(y.training)) == y.trainingTotal
  }

  lemma LengthsConcat(a: seq<Interval>, b: seq<Interval>)
    ensures Sum(Lengths(a + b)) == Sum(Lengths(a)) + Sum(Lengths(b))
  {
    assert Lengths(a + b) == Lengths(a) + Lengths(b);
    SumConcat(Lengths(a), Lengths(b));
  }

  lemma SessionsSnoc(sessions: seq<seq<Codex.Event>>, k: nat, day: Day)
    requires k < |sessions|
    ensures forall states :: SessionTotal(sessions[..k + 1], day, states)
                             == SessionTotal(sessions[..k], day, states) + |SessionTicks(sessions[k], day, states)|
    ensures SomeActive(sessions[..k + 1], day)
            == SomeActive(sessions[..k], day) + SessionTicks(sessions[k], day, {Codex.Active})
  {
    assert sessions[..k + 1][..k] == sessions[..k];
  }

  lemma GpusSnoc(gpus: seq<seq<Gpu.Sample>>, k: nat, day: Day)
    requires k < |gpus|
    ensures forall state :: GpuTotal(gpus[..k + 1], day, state)
                            == GpuTotal(gpus[..k], day, state) + |GpuTicks(gpus[k], day, state)|
    ensures SomeTraining(gpus[..k + 1], day) == SomeTraining(gpus[..k], day) + GpuTicks(gpus[k], day, Training)
  {
    assert gpus[..k + 1][..k] == gpus[..k];
  }

  lemma IntervalsGrow(was: seq<Interval>, now: seq<Interval>)
    requires was <= now
    ensures Cover(now) == Cover(was) + Cover(now[|was|..])
    ensures Sum(Lengths(now)) == Sum(Lengths(was)) + Sum(Lengths(now[|was|..]))
  {
    assert now == was + now[|was|..];
    CoverConcat(was, now[|was|..]);
    LengthsConcat(was, now[|was|..]);
  }

  lemma AddSession(was: Codex.Tally, now: Codex.Tally, sessions: seq<seq<Codex.Event>>, k: nat, day: Day, first: int)
    requires k < |sessions|
    requires CodexSoFar(was, sessions[..k], day)
    requires sessions[k] != [] && first == SessionPoints(sessions[k])[0].at
    requires Codex.Covers(now, was, SessionPoints(sessions[k]), day.stall, day.From(first), day.To(first))
    ensures CodexSoFar(now, sessions[..k + 1], day)
  {
    SessionsSnoc(sessions, k, day);
    IntervalsGrow(was.activeIntervals, now.activeIntervals);
  }

  lemma AddGpu(was: Gpu.Tally, now: Gpu.Tally, gpus: seq<seq<Gpu.Sample>>, k: nat, day: Day, first: int)
    requires k < |gpus|
    requires GpuSoFar(was, gpus[..k], day)
    requires gpus[k] != [] && first == Sort(SampleOrder, gpus[k])[0].at
    requires Gpu.Covers(now, was, Sort(SampleOrder, gpus[k]), day.gap, day.From(first), day.To(first))
    ensures GpuSoFar(now, gpus[..k + 1], day)
  {
    GpusSnoc(gpus, k, day);
    IntervalsGrow(was.training, now.training);
  }

  lemma SessionLanesSnoc(lanes: seq<seq<Span<Codex.Note>>>, lane: seq<Span<Codex.Note>>,
                         sessions: seq<seq<Codex.Event>>, k: nat, day: Day)
    requires k < |sessions| && sessions[k] != []
    requires SessionLanes(lanes, sessions[..k], day) && SessionShown(lane, sessions[k], day)
    ensures SessionLanes(if lane == [] then lanes else lanes + [lane], sessions[..k + 1], day)
  {
    var done := sessions[..k + 1];
    assert done[..|done| - 1] == sessions[..k] && done[|done| - 1] == sessions[k];
    NextSession(lanes, lane, done, day);
  }

  lemma NextSession(lanes: seq<seq<Span<Codex.Note>>>, lane: seq<Span<Codex.Note>>,
                    done: seq<seq<Codex.Event>>, day: Day)
    requires done != [] && done[|done| - 1] != []
    requires SessionLanes(lanes, done[..|done| - 1], day) && SessionShown(lane, done[|done| - 1], day)
    ensures SessionLanes(if lane == [] then lanes else lanes + [lane], done, day)
  {
    var first := SessionPoints(done[|done| - 1])[0].at;
    RawLaneSpan(lane, day.From(first), day.To(first));
    if lane != [] {
      assert (lanes + [lane])[..|lanes|] == lanes;
    }
  }

  lemma GpuLanesSnoc(lanes: seq<seq<Bar>>, lane: seq<Bar>, gpus: seq<seq<Gpu.Sample>>, k: nat, day: Day)
    requires k < |gpus| && gpus[k] != []
    requires GpuLanesShown(lanes, gpus[..k], day) && GpuShown(lane, gpus[k], day)
    ensures GpuLanesShown(if lane == [] then lanes else lanes + [lane], gpus[..k + 1], day)
  {
    var done := gpus[..k + 1];
    assert done[..|done| - 1] == gpus[..k] && done[|done| - 1] == gpus[k];
    NextGpu(lanes, lane, done, day);
  }

  lemma NextGpu(lanes: seq<seq<Bar>>, lane: seq<Bar>, done: seq<seq<Gpu.Sample>>, day: Day)
    requires done != [] && done[|done| - 1] != []
    requires GpuLanesShown(lanes, done[..|done| - 1], day) && GpuShown(lane, done[|done| - 1], day)
    ensures GpuLanesShown(if lane == [] then lanes else lanes + [lane], done, day)
  {
    var first := Sort(SampleOrder, done[|done| - 1])[0].at;
    LaneOrder(lane, day.From(first), day.To(first));
    if lane != [] {
      assert (lanes + [lane])[..|lanes|] == lanes;
    }
  }

  /** Tile one session's lane. */
  method SessionLane(report: Codex.CodexReport, sessions: seq<seq<Codex.Event>>, k: nat, day: Day)
    returns (lane: seq<Span<Codex.Note>>)
    requires k < |sessions| && sessions[k] != [] && day.stall > 0
    requires report.scope == day.CodexScope() && report.segments == []
    requires CodexSoFar(report.State(), sessions[..k], day)
    modifies report
    ensures CodexSoFar(report.State(), sessions[..k + 1], day)
    ensures report.segments == [] && SessionShown(lane, sessions[k], day)
  {
    var rows := Sort(EventOrder, sessions[k]);
    SessionInOrder(sessions[k]);
    ghost var was := report.State();
    report.AddLane(rows);
    assert Codex.LaneEnd(SessionPoints(sessions[k]), report.scope) == day.To(rows[0].at);
    AddSession(was, report.State(), sessions, k, day, rows[0].at);
    lane := report.FinishLane();
  }

  method CodexLanes(sessions: seq<seq<Codex.Event>>, day: Day)
    returns (y: Codex.Tally, lanes: seq<seq<Span<Codex.Note>>>)
    requires NoneEmpty(sessions) && day.stall > 0
    ensures CodexSoFar(y, sessions, day) && SessionLanes(lanes, sessions, day)
  {
    var report := new Codex.CodexReport(day.CodexScope());
    lanes := [];
    for k := 0 to |sessions|
      invariant fresh(report) && report.scope == day.CodexScope() && report.segments == []
      invariant CodexSoFar(report.State(), sessions[..k], day) && SessionLanes(lanes, sessions[..k], day)
    {
      assert sessions[k] in sessions;
      var lane := SessionLane(report, sessions, k, day);
      SessionLanesSnoc(lanes, lane, sessions, k, day);
      if lane != [] {
        lanes := lanes + [lane];
      }
    }
    assert sessions[..|sessions|] == sessions;
    y := report.State();
  }

  /** Tile one GPU's lane and display it. */
  method OneGpuLane(report: Gpu.GpuReport, gpus: seq<seq<Gpu.Sample>>, k: nat, day: Day) returns (bars: seq<Bar>)
    requires k < |gpus| && gpus[k] != []
    requires report.scope == day.GpuScope() && report.segments == []
    requires GpuSoFar(report.State(), gpus[..k], day)
    modifies report
    ensures GpuSoFar(report.State(), gpus[..k + 1], day)
    ensures report.segments == [] && GpuShown(bars, gpus[k], day)
  {
    var rows := Sort(SampleOrder, gpus[k]);
    SamplesInOrder(gpus[k]);
    ghost var was := report.State();
    report.AddLane(rows);
    ghost var tiles := report.segments;
    CoalescingConservesTime(tiles, day.mergeGap, day.From(rows[0].at), day.To(rows[0].at), Key(Training, ""));
    AddGpu(was, report.State(), gpus, k, day, rows[0].at);
    bars := report.FinishLane(day.mergeGap);
  }

  method GpuLanes(gpus: seq<seq<Gpu.Sample>>, day: Day) returns (y: Gpu.Tally, lanes: seq<seq<Bar>>)
    requires NoneEmpty(gpus)
    ensures GpuSoFar(y, gpus, day) && GpuLanesShown(lanes, gpus, day)
  {
    var report := new Gpu.GpuReport(day.GpuScope());
    lanes := [];
    for k := 0 to |gpus|
      invariant fresh(report) && report.scope == day.GpuScope() && report.segments == []
      invariant GpuSoFar(report.State(), gpus[..k], day) && GpuLanesShown(lanes, gpus[..k], day)
    {
      assert gpus[k] in gpus;
      var bars := OneGpuLane(report, gpus, k, day);
      GpuLanesSnoc(lanes, bars, gpus, k, day);
      if bars != [] {
        lanes := lanes + [bars];
      }
    }
    assert gpus[..|gpus|] == gpus;
    y := report.State();
  }

  /** The day's summary in terms of what the lanes mean tick by tick. */
  ghost predicate Summarises(r: Summary, sessions: seq<seq<Codex.Event>>, gpus: seq<seq<Gpu.Sample>>, day: Day)
  {
    && r.active == SessionTotal(sessions, day, {Codex.Active})
    && r.waiting == SessionTotal(sessions, day, Codex.WAITING)
    && r.stalled == SessionTotal(sessions, day, {Codex.Stalled})
    && r.training == GpuTotal(gpus, day, Training)
    && r.idle == GpuTotal(gpus, day, Idle)
    && r.overlap == |SomeActive(sessions, day) * SomeTraining(gpus, day)|
  }

  // ---- Bounds and sums of the whole report ------------------------------------------------------

  /** The lengths of all sessions' lanes together. */
  ghost function LaneLengths(sessions: seq<seq<Codex.Event>>, day: Day): int {
    if sessions == [] then 0
    else
      var n := |sessions| - 1;
      LaneLengths(sessions[..n], day)
      + if sessions[n] == [] then 0
        else day.To(SessionPoints(sessions[n])[0].at) - day.From(SessionPoints(sessions[n])[0].at)
  }

  /** The samples of all GPUs that report the given state. */
  ghost function AllSamples(gpus: seq<seq<Gpu.Sample>>, state: GpuState): nat {
    if gpus == [] then 0
    else AllSamples(gpus[..|gpus| - 1], state) + Gpu.Samples(gpus[|gpus| - 1], state)
  }

  lemma SessionSplits(events: seq<Codex.Event>, day: Day)
    requires events != []
    ensures var first := SessionPoints(events)[0].at;
            |SessionTicks(events, day, {Codex.Active})| + |SessionTicks(events, day, Codex.WAITING)|
            + |SessionTicks(events, day, {Codex.Stalled})|
            == day.To(first) - day.From(first) - |SessionTicks(events, day, {Codex.Resting})|
  {
    var points := SessionPoints(events);
    Codex.LaneTimeSplits(points, day.stall, day.From(points[0].at), day.To(points[0].at));
  }

  /** Active, waiting and stalled time of all sessions is the length of their lanes without the resting
      time. */
  lemma {:induction false} SessionTotalsSplit(sessions: seq<seq<Codex.Event>>, day: Day)
    ensures SessionTotal(sessions, day, {Codex.Active}) + SessionTotal(sessions, day, Codex.WAITING)
            + SessionTotal(sessions, day, {Codex.Stalled})
            == LaneLengths(sessions, day) - SessionTotal(sessions, day, {Codex.Resting})
  {
    if sessions != [] {
      var n := |sessions| - 1;
      SessionTotalsSplit(sessions[..n], day);
      if sessions[n] != [] {
        SessionSplits(sessions[n], day);
      }
    }
  }

  lemma {:induction false} InsertKeepsSamples(x: Gpu.Sample, s: seq<Gpu.Sample>, state: GpuState)
    ensures Gpu.Samples(Insert(SampleOrder, x, s), state) == Gpu.Samples([x], state) + Gpu.Samples(s, state)
  {
    if s == [] || SampleOrder(x, s[0]) {
      Gpu.SamplesConcat([x], s, state);
    } else {
      InsertKeepsSamples(x, s[1..], state);
      Gpu.SamplesConcat([s[0]], Insert(SampleOrder, x, s[1..]), state);
      Gpu.SamplesConcat([s[0]], s[1..], state);
      assert s == [s[0]] + s[1..];
    }
  }

  lemma {:induction false} SortKeepsSamples(s: seq<Gpu.Sample>, state: GpuState)
    ensures Gpu.Samples(Sort(SampleOrder, s), state) == Gpu.Samples(s, state)
  {
    if s != [] {
      SortKeepsSamples(s[1..], state);
      InsertKeepsSamples(s[0], Sort(SampleOrder, s[1..]), state);
      Gpu.SamplesConcat([s[0]], s[1..], state);
      assert s == [s[0]] + s[1..];
    }
  }

  lemma GpuCredit(samples: seq<Gpu.Sample>, day: Day, gap: int, state: GpuState)
    requires day.gap == Some(gap) && gap > 0 && state != Unknown
    ensures |GpuTicks(samples, day, state)| <= gap * Gpu.Samples(samples, state)
  {
    if samples != [] {
      var rows := Sort(SampleOrder, samples);
      Gpu.CreditBound(rows, gap, state, day.From(rows[0].at), day.To(rows[0].at));
      SortKeepsSamples(samples, state);
    }
  }

  ghost function AllCredits(gpus: seq<seq<Gpu.Sample>>, gap: int, state: GpuState): int {
    if gpus == [] then 0
    else AllCredits(gpus[..|gpus| - 1], gap, state) + gap * Gpu.Samples(gpus[|gpus| - 1], state)
  }

  lemma {:induction false} TotalWithinCredits(gpus: seq<seq<Gpu.Sample>>, day: Day, gap: int, state: GpuState)
    requires day.gap == Some(gap) && gap > 0 && state != Unknown
    ensures GpuTotal(gpus, day, state) <= AllCredits(gpus, gap, state)
  {
    if gpus != [] {
      TotalWithinCredits(gpus[..|gpus| - 1], day, gap, state);
      GpuCredit(gpus[|gpus| - 1], day, gap, state);
    }
  }

  lemma {:induction false} CreditsPerSample(gpus: seq<seq<Gpu.Sample>>, gap: int, state: GpuState)
    ensures AllCredits(gpus, gap, state) == gap * AllSamples(gpus, state)
  {
    if gpus != [] {
      CreditsPerSample(gpus[..|gpus| - 1], gap, state);
      Distributes(gap, AllSamples(gpus[..|gpus| - 1], state), Gpu.Samples(gpus[|gpus| - 1], state));
    }
  }

  lemma Distributes(gap: int, a: int, b: int)
    ensures gap * (a + b) == gap * a + gap * b
  {
  }

  /** No state lasts longer, over all GPUs, than the gap times the samples that report it. */
  lemma GpuTotalBound(gpus: seq<seq<Gpu.Sample>>, day: Day, gap: int, state: GpuState)
    requires day.gap == Some(gap) && gap > 0 && state != Unknown
    ensures GpuTotal(gpus, day, state) <= gap * AllSamples(gpus, state)
  {
    TotalWithinCredits(gpus, day, gap, state);
    CreditsPerSample(gpus, gap, state);
  }

  /** What the numbers of the report add up to, and how far samples can carry them. */
  lemma SummaryBalances(r: Summary, sessions: seq<seq<Codex.Event>>, gpus: seq<seq<Gpu.Sample>>, day: Day)
    requires Summarises(r, sessions, gpus, day)
    ensures r.active + r.waiting + r.stalled
            == LaneLengths(sessions, day) - SessionTotal(sessions, day, {Codex.Resting})
    ensures day.gap.Some? && day.gap.value > 0 ==>
              && r.training <= day.gap.value * AllSamples(gpus, Training)
              && r.idle <= day.gap.value * AllSamples(gpus, Idle)
  {
    SessionTotalsSplit(sessions, day);
    if day.gap.Some? && day.gap.value > 0 {
      GpuTotalBound(gpus, day, day.gap.value, Training);
      GpuTotalBound(gpus, day, day.gap.value, Idle);
    }
  }

  // ---- What lies in the day -----------------------------------------------------------------

  ghost predicate TilesInDay(lane: seq<Span<Codex.Note>>, day: Day) {
    forall v :: v in lane ==> day.start <= v.start < v.end <= day.end && v.end <= day.asOf
  }

  ghost predicate BarsInDay(lane: seq<Bar>, day: Day) {
    forall b :: b in lane ==> day.start <= b.start < b.end <= day.end && b.end <= day.asOf
  }

  lemma TilesInside(lane: seq<Span<Codex.Note>>, events: seq<Codex.Event>, day: Day)
    requires events != [] && SessionShown(lane, events, day)
    requires var first := SessionPoints(events)[0].at; day.From(first) != day.To(first)
    ensures TilesInDay(lane, day)
  {
    var first := SessionPoints(events)[0].at;
    SegmentsInside(lane, day.From(first), day.To(first));
  }

  lemma BarsInside(lane: seq<Bar>, samples: seq<Gpu.Sample>, day: Day)
    requires samples != [] && GpuShown(lane, samples, day)
    requires var first := Sort(SampleOrder, samples)[0].at; day.From(first) != day.To(first)
    ensures BarsInDay(lane, day)
  {
    var first := Sort(SampleOrder, samples)[0].at;
    LaneOrder(lane, day.From(first), day.To(first));
  }

  /** The last group adds no lane, or a lane inside the day. */
  lemma LastSessionLane(lanes: seq<seq<Span<Codex.Note>>>, sessions: seq<seq<Codex.Event>>, day: Day)
    returns (skipped: bool)
    requires SessionLanes(lanes, sessions, day) && sessions != []
    ensures skipped ==> SessionLanes(lanes, sessions[..|sessions| - 1], day)
    ensures !skipped ==> lanes != [] && TilesInDay(lanes[|lanes| - 1], day)
                         && SessionLanes(lanes[..|lanes| - 1], sessions[..|sessions| - 1], day)
  {
    var n := |sessions| - 1;
    var first := SessionPoints(sessions[n])[0].at;
    skipped := day.From(first) == day.To(first);
    if !skipped {
      TilesInside(lanes[|lanes| - 1], sessions[n], day);
    }
  }

  /** Lanes stay inside the day and before the moment of the report. */
  lemma {:induction false} SessionLanesInside(lanes: seq<seq<Span<Codex.Note>>>, sessions: seq<seq<Codex.Event>>,
                                              day: Day, k: nat)
    requires SessionLanes(lanes, sessions, day) && k < |lanes|
    ensures TilesInDay(lanes[k], day)
  {
    if sessions != [] {
      var skipped := LastSessionLane(lanes, sessions, day);
      if skipped {
        SessionLanesInside(lanes, sessions[..|sessions| - 1], day, k);
      } else if k < |lanes| - 1 {
        SessionLanesInside(lanes[..|lanes| - 1], sessions[..|sessions| - 1], day, k);
      }
    }
  }

  /** The last group adds no lane, or a lane inside the day. */
  lemma LastGpuLane(lanes: seq<seq<Bar>>, gpus: seq<seq<Gpu.Sample>>, day: Day) returns (skipped: bool)
    requires GpuLanesShown(lanes, gpus, day) && gpus != []
    ensures skipped ==> GpuLanesShown(lanes, gpus[..|gpus| - 1], day)
    ensures !skipped ==> lanes != [] && BarsInDay(lanes[|lanes| - 1], day)
                         && GpuLanesShown(lanes[..|lanes| - 1], gpus[..|gpus| - 1], day)
  {
    var n := |gpus| - 1;
    var first := Sort(SampleOrder, gpus[n])[0].at;
    skipped := day.From(first) == day.To(first);
    if !skipped {
      BarsInside(lanes[|lanes| - 1], gpus[n], day);
    }
  }

  lemma {:induction false} GpuLanesInside(lanes: seq<seq<Bar>>, gpus: seq<seq<Gpu.Sample>>, day: Day, k: nat)
    requires GpuLanesShown(lanes, gpus, day) && k < |lanes|
    ensures BarsInDay(lanes[k], day)
  {
    if gpus != [] {
      var skipped := LastGpuLane(lanes, gpus, day);
      if skipped {
        GpuLanesInside(lanes, gpus[..|gpus| - 1], day, k);
      } else if k < |lanes| - 1 {
        GpuLanesInside(lanes[..|lanes| - 1], gpus[..|gpus| - 1], day, k);
      }
    }
  }

  /** All events of a session come at or after the end of the day or the moment of the report. */
  ghost predicate AllLate(events: seq<Codex.Event>, day: Day) {
    forall e :: e in events ==> day.end <= e.at || day.asOf <= e.at
  }

  ghost predicate AllSampledLate(samples: seq<Gpu.Sample>, day: Day) {
    forall s :: s in samples ==> day.end <= s.at || day.asOf <= s.at
  }

  ghost predicate NoEventYet(sessions: seq<seq<Codex.Event>>, day: Day) {
    forall k :: 0 <= k < |sessions| ==> AllLate(sessions[k], day)
  }

  ghost predicate NoSampleYet(gpus: seq<seq<Gpu.Sample>>, day: Day) {
    forall k :: 0 <= k < |gpus| ==> AllSampledLate(gpus[k], day)
  }

  lemma FirstEvent(events: seq<Codex.Event>)
    requires events != []
    ensures forall e :: e in events ==> SessionPoints(events)[0].at <= e.at
    ensures exists e :: e in events && e.at == SessionPoints(events)[0].at
  {
    var rows := Sort(EventOrder, events);
    SortSorted(EventOrder, events);
    MultisetMembers(rows, events);
    assert rows[0] in rows;
    forall e | e in events ensures rows[0].at <= e.at {
      var j :| 0 <= j < |rows| && rows[j] == e;
    }
  }

  lemma FirstSample(samples: seq<Gpu.Sample>)
    requires samples != []
    ensures forall s :: s in samples ==> Sort(SampleOrder, samples)[0].at <= s.at
    ensures exists s :: s in samples && s.at == Sort(SampleOrder, samples)[0].at
  {
    var rows := Sort(SampleOrder, samples);
    SortSorted(SampleOrder, samples);
    MultisetMembers(rows, samples);
    assert rows[0] in rows;
    forall s | s in samples ensures rows[0].at <= s.at {
      var j :| 0 <= j < |rows| && rows[j] == s;
    }
  }

  /** A session has no time in the day exactly when all of its events are late. */
  lemma LateSession(events: seq<Codex.Event>, day: Day, states: set<Codex.State>)
    requires events != [] && day.start < day.Until()
    ensures var first := SessionPoints(events)[0].at;
            && (day.From(first) == day.To(first) <==> AllLate(events, day))
            && (day.From(first) == day.To(first) ==> SessionTicks(events, day, states) == {})
  {
    FirstEvent(events);
  }

  lemma LateGpu(samples: seq<Gpu.Sample>, day: Day, state: GpuState)
    requires samples != [] && day.start < day.Until()
    ensures var first := Sort(SampleOrder, samples)[0].at;
            && (day.From(first) == day.To(first) <==> AllSampledLate(samples, day))
            && (day.From(first) == day.To(first) ==> GpuTicks(samples, day, state) == {})
  {
    FirstSample(samples);
  }

  lemma NoEventSnoc(sessions: seq<seq<Codex.Event>>, day: Day)
    requires sessions != []
    ensures NoEventYet(sessions, day)
            <==> NoEventYet(sessions[..|sessions| - 1], day) && AllLate(sessions[|sessions| - 1], day)
  {
  }

  lemma NoSampleSnoc(gpus: seq<seq<Gpu.Sample>>, day: Day)
    requires gpus != []
    ensures NoSampleYet(gpus, day)
            <==> NoSampleYet(gpus[..|gpus| - 1], day) && AllSampledLate(gpus[|gpus| - 1], day)
  {
  }

  /** There is no session lane exactly when no session has an event that early, and then nothing to count. */
  lemma {:induction false} NoSessionLane(lanes: seq<seq<Span<Codex.Note>>>, sessions: seq<seq<Codex.Event>>, day: Day,
                                         states: set<Codex.State>)
    requires SessionLanes(lanes, sessions, day) && day.start < day.Until()
    ensures lanes == [] <==> NoEventYet(sessions, day)
    ensures lanes == [] ==> SomeActive(sessions, day) == {} && SessionTotal(sessions, day, states) == 0
  {
    if sessions != [] {
      var n := |sessions| - 1;
      LateSession(sessions[n], day, states);
      LateSession(sessions[n], day, {Codex.Active});
      NoEventSnoc(sessions, day);
      if AllLate(sessions[n], day) {
        NoSessionLane(lanes, sessions[..n], day, states);
      }
    }
  }

  lemma {:induction false} NoGpuLane(lanes: seq<seq<Bar>>, gpus: seq<seq<Gpu.Sample>>, day: Day, state: GpuState)
    requires GpuLanesShown(lanes, gpus, day) && day.start < day.Until()
    ensures lanes == [] <==> NoSampleYet(gpus, day)
    ensures lanes == [] ==> GpuTotal(gpus, day, state) == 0
  {
    if gpus != [] {
      var n := |gpus| - 1;
      LateGpu(gpus[n], day, state);
      NoSampleSnoc(gpus, day);
      if AllSampledLate(gpus[n], day) {
        NoGpuLane(lanes, gpus[..n], day, state);
      }
    }
  }

  /** Without lanes there is nothing to sum up. */
  lemma NothingToCount(r: Report, sessions: seq<seq<Codex.Event>>, gpus: seq<seq<Gpu.Sample>>, day: Day)
    requires day.start < day.Until() && SessionLanes(r.codex, sessions, day) && GpuLanesShown(r.gpu, gpus, day)
    requires Summarises(r.summary, sessions, gpus, day) && r.codex == [] && r.gpu == []
    ensures r == NOTHING
  {
    NoSessionLane([], sessions, day, {Codex.Active});
    NoSessionLane([], sessions, day, Codex.WAITING);
    NoSessionLane([], sessions, day, {Codex.Stalled});
    NoGpuLane([], gpus, day, Training);
    NoGpuLane([], gpus, day, Idle);
    assert {} * SomeTraining(gpus, day) == {};
  }

  lemma NothingExactly(r: Report, sessions: seq<seq<Codex.Event>>, gpus: seq<seq<Gpu.Sample>>, day: Day)
    requires day.start < day.Until() && SessionLanes(r.codex, sessions, day) && GpuLanesShown(r.gpu, gpus, day)
    requires Summarises(r.summary, sessions, gpus, day)
    ensures r == NOTHING <==> NoEventYet(sessions, day) && NoSampleYet(gpus, day)
  {
    NoSessionLane(r.codex, sessions, day, {});
    NoGpuLane(r.gpu, gpus, day, Idle);
    if r.codex == [] && r.gpu == [] {
      NothingToCount(r, sessions, gpus, day);
    }
  }

  method BuildDay(sessions: seq<seq<Codex.Event>>, gpus: seq<seq<Gpu.Sample>>, day: Day)
    returns (r: Result<Report, ReportError>)
    requires NoneEmpty(sessions) && NoneEmpty(gpus)
    ensures r.Ok? <==> day.stall > 0 && (day.gap.Some? ==> day.gap.value > 0) && day.mergeGap >= 0
    ensures r == Err(StallNotPositive) <==> day.stall <= 0
    ensures r == Err(GapNotPositive) <==> day.stall > 0 && day.gap.Some? && day.gap.value <= 0
    ensures r.Ok? && day.start < day.end && day.start < day.asOf ==>
              && SessionLanes(r.value.codex, sessions, day) && GpuLanesShown(r.value.gpu, gpus, day)
              && r.value.summary.active == SessionTotal(sessions, day, {Codex.Active})
              && r.value.summary.waiting == SessionTotal(sessions, day, {Codex.OnTool, Codex.OnUser})
              && r.value.summary.stalled == SessionTotal(sessions, day, {Codex.Stalled})
              && r.value.summary.training == GpuTotal(gpus, day, Training)
              && r.value.summary.idle == GpuTotal(gpus, day, Idle)
              && r.value.summary.overlap == |SomeActive(sessions, day) * SomeTraining(gpus, day)|
    ensures r.Ok? ==> forall k :: 0 <= k < |r.value.codex| ==> TilesInDay(r.value.codex[k], day)
    ensures r.Ok? ==> forall k :: 0 <= k < |r.value.gpu| ==> BarsInDay(r.value.gpu[k], day)
    ensures r.Ok? ==>
              var s := r.value.summary;
              && s.overlap <= s.active && s.overlap <= s.training
              && s.overlap <= Max(0, day.end - day.start) && s.overlap <= Max(0, day.asOf - day.start)
    ensures r.Ok? ==>
              (r.value == NOTHING
               <==> || day.end <= day.start || day.asOf <= day.start
                    || (NoEventYet(sessions, day) && NoSampleYet(gpus, day)))
  {
    if day.stall <= 0 {
      return Err(StallNotPositive);
    }
    if day.gap.Some? && day.gap.value <= 0 {
      return Err(GapNotPositive);
    }
    if day.mergeGap < 0 {
      return Err(MergeGapNegative);
    }
    if day.Until() <= day.start {
      return Ok(NOTHING);
    }
    var c, codex := CodexLanes(sessions, day);
    var g, gpu := GpuLanes(gpus, day);
    var overlap := IntersectionDuration(c.activeIntervals, g.training);
    ActiveInDay(sessions, day);
    OverlapBounds(c.activeIntervals, g.training, day.start, day.Until());
    var summary := Summary(c.active, c.waiting, c.stalled, g.trainingTotal, g.idleTotal, overlap);
    forall k | 0 <= k < |codex| ensures TilesInDay(codex[k], day) {
      SessionLanesInside(codex, sessions, day, k);
    }
    forall k | 0 <= k < |gpu| ensures BarsInDay(gpu[k], day) {
      GpuLanesInside(gpu, gpus, day, k);
    }
    NothingExactly(Report(codex, gpu, summary), sessions, gpus, day);
    r := Ok(Report(codex, gpu, summary));
  }
}

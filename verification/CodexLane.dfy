/** One Codex session lane of the daily report: events drive a small state machine whose state is
    held until the next event, and an active tail turns into a derived stall. */
module CodexLane {
  import opened Prelude
  import opened Intervals
  import opened Tiling

  datatype Phase =
    | Research | Review | Analysis | Implement | Test | Operate | ActiveUnspecified
    | WaitingTool | WaitingUser | SuspectedStall | IdlePhase

  datatype Kind = SessionStart | UserPrompt | PreTool | PostTool | Stop | PhaseMark | TurnStart | TurnEnd

  datatype State = Active | OnTool | OnUser | Stalled | Resting

  datatype Event = Event(id: int, at: int, kind: Kind, phase: Phase, source: string, confidence: int,
                         toolCategory: string, toolActive: bool)

  /** Where a segment comes from: a recorded event, or the tail after the last one. */
  datatype Origin = Recorded(event: int) | Derived(stallAt: int)

  /** The metadata that a report segment carries. */
  datatype Note = Note(phase: Phase, source: string, confidence: int, toolCategory: string,
                       toolActive: bool, origin: Origin)

  datatype Mode = Mode(state: State, note: Note)

  // ---- The event state machine ------------------------------------------------------------

  predicate ActivePhase(p: Phase) {
    p !in {WaitingTool, WaitingUser, SuspectedStall, IdlePhase}
  }

  /** State, phase and tool flag after an event. */
  function EventState(e: Event, previous: Option<Phase>): (State, Phase, bool) {
    match e.kind
    case PreTool => (OnTool, WaitingTool, true)
    case Stop => (OnUser, WaitingUser, false)
    case TurnEnd => (OnUser, WaitingUser, false)
    case PostTool =>
      if ActivePhase(e.phase) then (Active, e.phase, false)
      else if previous.Some? && ActivePhase(previous.value) then (Active, previous.value, false)
      else (Active, ActiveUnspecified, false)
    case _ =>
      match e.phase
      case WaitingTool => (OnTool, e.phase, e.toolActive)
      case WaitingUser => (OnUser, e.phase, false)
      case SuspectedStall => (Stalled, e.phase, false)
      case IdlePhase => (Resting, e.phase, false)
      case _ => (Active, e.phase, e.toolActive)
  }

  function Entered(e: Event, previous: Option<Phase>): Mode {
    var (state, phase, tool) := EventState(e, previous);
    Mode(state, Note(phase, e.source, e.confidence, e.toolCategory, tool, Recorded(e.id)))
  }

  /** The mode after all of the given events. */
  function After(rows: seq<Event>): Mode
    requires rows != []
  {
    var init := rows[..|rows| - 1];
    Entered(rows[|rows| - 1], if init == [] then None else Some(After(init).note.phase))
  }

  /** A tool event never leaves the semantic phase behind: the phase after PostToolUse is the event's
      own active phase, or generic, but not the one from before PreToolUse. */
  lemma PostToolForgetsPhase(rows: seq<Event>, pre: Event, post: Event)
    requires pre.kind == PreTool && post.kind == PostTool
    ensures After(rows + [pre, post]).note.phase
            == if ActivePhase(post.phase) then post.phase else ActiveUnspecified
  {
    var all := rows + [pre, post];
    assert all[..|all| - 1] == rows + [pre];
    assert (rows + [pre])[..|rows|] == rows;
  }

  /** The phase of the latest moment at which the session was in an active phase. */
  function LastActive(rows: seq<Event>): Option<Phase> {
    if rows == [] then None
    else if ActivePhase(After(rows).note.phase) then Some(After(rows).note.phase)
    else LastActive(rows[..|rows| - 1])
  }

  /** The event names no semantic phase: none was supplied, which is stored as the generic one, or one
      that is not active. */
  predicate NamesNoPhase(e: Event) {
    e.phase == ActiveUnspecified || !ActivePhase(e.phase)
  }

  /** A PostToolUse that names no semantic phase restores the last active phase, as promised, exactly when
      it is stored with a phase that is not active right after an event that left an active one, or when
      the phase to restore happens to be the generic one. */
  lemma PostToolRestoresExactly(rows: seq<Event>, post: Event)
    requires post.kind == PostTool && NamesNoPhase(post) && LastActive(rows).Some?
    ensures Some(After(rows + [post]).note.phase) == LastActive(rows)
            <==> || (!ActivePhase(post.phase) && ActivePhase(After(rows).note.phase))
                 || LastActive(rows) == Some(ActiveUnspecified)
  {
    assert (rows + [post])[..|rows|] == rows;
    LastActiveIsActive(rows);
  }

  lemma {:induction false} LastActiveIsActive(rows: seq<Event>)
    ensures LastActive(rows).Some? ==> ActivePhase(LastActive(rows).value)
  {
    if rows != [] {
      LastActiveIsActive(rows[..|rows| - 1]);
    }
  }

  /** A session that researches, starts a tool and ends it is no longer researching. */
  lemma ResearchIsForgotten(prompt: Event, pre: Event, post: Event)
    requires prompt.kind == UserPrompt && prompt.phase == Research
    requires pre.kind == PreTool && post.kind == PostTool && NamesNoPhase(post)
    ensures LastActive([prompt, pre]) == Some(Research)
    ensures After([prompt, pre, post]).note.phase == ActiveUnspecified
  {
    assert [prompt, pre][..1] == [prompt];
    PostToolForgetsPhase([prompt], pre, post);
    assert [prompt] + [pre, post] == [prompt, pre, post];
  }

  /** Even with no tool start in between, a tool end without a phase of its own, stored as the generic one,
      ends the research. */
  lemma ResearchIsReplaced(prompt: Event, post: Event)
    requires prompt.kind == UserPrompt && prompt.phase == Research
    requires post.kind == PostTool && post.phase == ActiveUnspecified
    ensures LastActive([prompt]) == Some(Research) && ActivePhase(After([prompt]).note.phase)
    ensures After([prompt, post]).note.phase == ActiveUnspecified
  {
    assert [prompt, post][..1] == [prompt];
  }

  // ---- Meaning ----------------------------------------------------------------------------

  /** A moment at which a mode was entered. */
  datatype Point = Point(at: int, mode: Mode)

  /** The modes that a session's events enter, in order. */
  function Points(rows: seq<Event>): seq<Point> {
    seq(|rows|, i requires 0 <= i < |rows| => Point(rows[i].at, After(rows[..i + 1])))
  }

  ghost predicate InOrder(points: seq<Point>) {
    forall i, j :: 0 <= i < j < |points| ==> points[i].at <= points[j].at
  }

  function Last(points: seq<Point>): Point
    requires points != []
  {
    points[|points| - 1]
  }

  /** The mode entered last at or before `t`. */
  ghost function ModeAt(points: seq<Point>, t: int): Option<Mode> {
    if points == [] then None
    else if Last(points).at <= t then Some(Last(points).mode)
    else ModeAt(points[..|points| - 1], t)
  }

  predicate MayStall(m: Mode) {
    m.state == Active && !m.note.toolActive
  }

  function StallMode(stallAt: int): Mode {
    Mode(Stalled, Note(SuspectedStall, "inferred", 50, "", false, Derived(stallAt)))
  }

  /** What the session is doing at `t`: an active session without a running tool that has been
      silent for `stall` ticks counts as stalled. */
  ghost function Doing(points: seq<Point>, stall: int, t: int): Option<Mode> {
    if points != [] && Last(points).at + stall <= t && MayStall(Last(points).mode)
    then Some(StallMode(Last(points).at + stall))
    else ModeAt(points, t)
  }

  ghost predicate Tiles(s: seq<Span<Note>>, points: seq<Point>, stall: int, lo: int, hi: int) {
    && RawLane(s, lo, hi)
    && forall i, t :: 0 <= i < |s| && At(s[i], t) ==>
         Doing(points, stall, t).Some? && Doing(points, stall, t).value.note == s[i].meta
  }

  /** The ticks of a stretch of the lane spent in one of the given states. */
  ghost function In(points: seq<Point>, stall: int, states: set<State>, lo: int, hi: int): set<int> {
    set t | t in Ticks(lo, hi) && Doing(points, stall, t).Some? && Doing(points, stall, t).value.state in states
  }

  lemma {:induction false} ModeBetween(points: seq<Point>, i: nat, t: int)
    requires InOrder(points) && i < |points| && points[i].at <= t
    requires i + 1 < |points| ==> t < points[i + 1].at
    ensures ModeAt(points, t) == Some(points[i].mode)
  {
    if i + 1 < |points| {
      assert t < points[i + 1].at <= Last(points).at || i + 1 == |points| - 1;
      ModeBetween(points[..|points| - 1], i, t);
    }
  }

  // ---- The report so far ------------------------------------------------------------------

  const WAITING: set<State> := {OnTool, OnUser}

  datatype Tally = Tally(segments: seq<Span<Note>>, active: int, waiting: int, stalled: int,
                         activeIntervals: seq<Interval>)

  datatype Scope = Scope(windowStart: int, windowEnd: int, asOf: int, stall: int) {
    /** Where the mode after the last event stops being held. */
    function Final(): int {
      Min(windowEnd, asOf)
    }
  }

  /** Where the tiles of a lane end: events are clipped to the window only, the tail also to `asOf`. */
  function LaneEnd(points: seq<Point>, w: Scope): int
    requires points != []
  {
    Reach(Max(w.windowStart, points[0].at), w.windowEnd, Max(Last(points).at, w.Final()))
  }

  /** The lane reaches every tick of the window up to the last event or, if that is later, the moment of the
      report. */
  lemma LaneReaches(rows: seq<Event>, w: Scope, t: int)
    requires rows != [] && InOrder(Points(rows)) && Max(w.windowStart, rows[0].at) <= t
    ensures t < LaneEnd(Points(rows), w) <==> t < w.windowEnd && (t < rows[|rows| - 1].at || t < w.asOf)
  {
  }

  function Extended(y: Tally, w: Scope, start: int, end: int, mode: Mode): Tally {
    match Clip(start, end, w.windowStart, w.windowEnd)
    case None => y
    case Some(v) =>
      var ticks := v.end - v.start;
      Tally(Appended(y.segments, v.start, v.end, mode.note),
            y.active + (if mode.state == Active then ticks else 0),
            y.waiting + (if mode.state in WAITING then ticks else 0),
            y.stalled + (if mode.state == Stalled then ticks else 0),
            y.activeIntervals + (if mode.state == Active then [v] else []))
  }

  /** Since `base` every total has grown by exactly the ticks of this lane spent in its states. */
  ghost predicate Counts(y: Tally, base: Tally, points: seq<Point>, stall: int, lo: int, hi: int) {
    && y.active == base.active + |In(points, stall, {Active}, lo, hi)|
    && y.waiting == base.waiting + |In(points, stall, WAITING, lo, hi)|
    && y.stalled == base.stalled + |In(points, stall, {Stalled}, lo, hi)|
  }

  /** The active intervals added since `base` are exactly the active ticks of this lane. */
  ghost predicate Marks(y: Tally, base: Tally, points: seq<Point>, stall: int, lo: int, hi: int) {
    && base.activeIntervals <= y.activeIntervals
    && Cover(y.activeIntervals[|base.activeIntervals|..]) == In(points, stall, {Active}, lo, hi)
    && Sum(Lengths(y.activeIntervals[|base.activeIntervals|..])) == |In(points, stall, {Active}, lo, hi)|
  }

  ghost predicate Covers(y: Tally, base: Tally, points: seq<Point>, stall: int, lo: int, hi: int) {
    && lo <= hi
    && Tiles(y.segments, points, stall, lo, hi)
    && Counts(y, base, points, stall, lo, hi)
    && Marks(y, base, points, stall, lo, hi)
  }

  lemma InExtends(points: seq<Point>, stall: int, states: set<State>, lo: int, mid: int, hi: int, mode: Mode)
    requires lo <= mid <= hi
    requires forall t :: mid <= t < hi ==> Doing(points, stall, t) == Some(mode)
    ensures In(points, stall, states, lo, hi) == In(points, stall, states, lo, mid)
                                               + (if mode.state in states then Ticks(mid, hi) else {})
    ensures |In(points, stall, states, lo, hi)| == |In(points, stall, states, lo, mid)|
                                                 + if mode.state in states then hi - mid else 0
  {
    TicksGrow(In(points, stall, states, lo, mid), In(points, stall, states, lo, hi), lo, mid, hi, mode.state in states);
  }

  /** A stretch of the lane, inside the window, on which the session does one thing. */
  ghost predicate Fits(points: seq<Point>, w: Scope, start: int, from: int, end: int, mode: Mode) {
    && from < end
    && Clip(start, end, w.windowStart, w.windowEnd) == Some(Interval(from, end))
    && forall t :: from <= t < end ==> Doing(points, w.stall, t) == Some(mode)
  }

  lemma ExtendedCounts(y: Tally, base: Tally, points: seq<Point>, lo: int, from: int,
                       w: Scope, start: int, end: int, mode: Mode)
    requires lo <= from && Counts(y, base, points, w.stall, lo, from) && Fits(points, w, start, from, end, mode)
    ensures Counts(Extended(y, w, start, end, mode), base, points, w.stall, lo, end)
  {
    InExtends(points, w.stall, {Active}, lo, from, end, mode);
    InExtends(points, w.stall, WAITING, lo, from, end, mode);
    InExtends(points, w.stall, {Stalled}, lo, from, end, mode);
  }

  lemma ExtendedMarks(y: Tally, base: Tally, points: seq<Point>, lo: int, from: int,
                      w: Scope, start: int, end: int, mode: Mode)
    requires lo <= from && Marks(y, base, points, w.stall, lo, from) && Fits(points, w, start, from, end, mode)
    ensures Marks(Extended(y, w, start, end, mode), base, points, w.stall, lo, end)
  {
    InExtends(points, w.stall, {Active}, lo, from, end, mode);
    TailGrows(y.activeIntervals, Extended(y, w, start, end, mode).activeIntervals,
              |base.activeIntervals|, from, end, mode.state == Active);
  }

  lemma ExtendedTiles(y: Tally, points: seq<Point>, lo: int, from: int, w: Scope, start: int, end: int, mode: Mode)
    requires Tiles(y.segments, points, w.stall, lo, from) && Fits(points, w, start, from, end, mode)
    ensures Tiles(Extended(y, w, start, end, mode).segments, points, w.stall, lo, end)
  {
    AppendedLane(y.segments, lo, from, end, mode.note);
    AppendedCarries(y.segments, from, end, mode.note);
  }

  lemma ExtendedCovers(y: Tally, base: Tally, points: seq<Point>, lo: int, from: int,
                       w: Scope, start: int, end: int, mode: Mode)
    requires Covers(y, base, points, w.stall, lo, from) && Fits(points, w, start, from, end, mode)
    ensures Covers(Extended(y, w, start, end, mode), base, points, w.stall, lo, end)
  {
    ExtendedTiles(y, points, lo, from, w, start, end, mode);
    ExtendedCounts(y, base, points, lo, from, w, start, end, mode);
    ExtendedMarks(y, base, points, lo, from, w, start, end, mode);
  }

  /** A stretch after the lane's first event on which the session does one thing. */
  ghost predicate Steady(points: seq<Point>, w: Scope, start: int, end: int, mode: Mode) {
    && points != [] && points[0].at <= start <= end
    && forall t :: start <= t < Min(end, w.windowEnd) ==> Doing(points, w.stall, t) == Some(mode)
  }

  lemma Advance(y: Tally, base: Tally, points: seq<Point>, w: Scope, lo: int, start: int, end: int, mode: Mode)
    requires Steady(points, w, start, end, mode) && lo == Max(w.windowStart, points[0].at)
    requires Covers(y, base, points, w.stall, lo, Reach(lo, w.windowEnd, start))
    ensures Covers(Extended(y, w, start, end, mode), base, points, w.stall, lo, Reach(lo, w.windowEnd, end))
  {
    var to := Min(end, w.windowEnd);
    assert Extended(y, w, start, end, mode) == Extended(y, w, start, to, mode);
    if Max(start, lo) < to {
      ExtendedCovers(y, base, points, lo, Reach(lo, w.windowEnd, start), w, start, to, mode);
    }
  }

  lemma EmptyCovers(y: Tally, points: seq<Point>, stall: int, lo: int)
    requires y.segments == []
    ensures Covers(y, y, points, stall, lo, lo)
  {
    assert forall states :: In(points, stall, states, lo, lo) == {};
    assert y.activeIntervals[|y.activeIntervals|..] == [];
  }

  lemma FirstBefore(points: seq<Point>, i: nat)
    requires InOrder(points) && i < |points|
    ensures points[0].at <= points[i].at <= Last(points).at
  {
    assert i > 0 ==> points[0].at <= points[i].at;
    assert i < |points| - 1 ==> points[i].at <= points[|points| - 1].at;
  }

  lemma BetweenPoints(points: seq<Point>, w: Scope, i: nat)
    requires InOrder(points) && i + 1 < |points| && w.stall >= 0
    ensures Steady(points, w, points[i].at, points[i + 1].at, points[i].mode)
  {
    FirstBefore(points, i);
    FirstBefore(points, i + 1);
    assert points[i].at <= points[i + 1].at;
    forall t | points[i].at <= t < points[i + 1].at ensures Doing(points, w.stall, t) == Some(points[i].mode) {
      ModeBetween(points, i, t);
    }
  }

  /** After the last event the session keeps its mode until it counts as stalled. */
  lemma TailHolds(points: seq<Point>, w: Scope, end: int)
    requires InOrder(points) && points != [] && Last(points).at <= end
    requires MayStall(Last(points).mode) ==> end <= Last(points).at + w.stall
    ensures Steady(points, w, Last(points).at, end, Last(points).mode)
  {
    FirstBefore(points, 0);
  }

  lemma TailStalls(points: seq<Point>, w: Scope, end: int)
    requires InOrder(points) && points != [] && MayStall(Last(points).mode)
    requires w.stall > 0 && Last(points).at + w.stall <= end
    ensures Steady(points, w, Last(points).at + w.stall, end, StallMode(Last(points).at + w.stall))
  {
    FirstBefore(points, 0);
  }

  /** Each event enters its mode from the phase before it. */
  lemma PointsAt(rows: seq<Event>, k: nat)
    requires k < |rows|
    ensures Points(rows)[k].at == rows[k].at
    ensures Points(rows)[k].mode
            == Entered(rows[k], if k == 0 then None else Some(Points(rows)[k - 1].mode.note.phase))
  {
    assert rows[..k + 1][..k] == rows[..k];
  }

  // ---- What each kind of event shows --------------------------------------------------------

  /** What a lane shows because of event `e`: a phase and a tool flag, with the event's own details. */
  function ShownBy(e: Event, phase: Phase, tool: bool): Note {
    Note(phase, e.source, e.confidence, e.toolCategory, tool, Recorded(e.id))
  }

  /** What a derived stall shows that began at tick `at`. */
  function InferredStall(at: int): Mode {
    Mode(Stalled, Note(SuspectedStall, "inferred", 50, "", false, Derived(at)))
  }

  lemma DoingFrom(points: seq<Point>, stall: int, i: nat, t: int)
    requires InOrder(points) && stall > 0 && i < |points| && points[i].at <= t
    requires i + 1 < |points| ==> t < points[i + 1].at
    ensures Doing(points, stall, t)
            == if i + 1 == |points| && points[i].at + stall <= t && MayStall(points[i].mode)
               then Some(StallMode(points[i].at + stall)) else Some(points[i].mode)
  {
    if i + 1 < |points| {
      FirstBefore(points, i + 1);
    }
    ModeBetween(points, i, t);
  }

  lemma DoingAt(rows: seq<Event>, stall: int, i: nat, t: int)
    requires InOrder(Points(rows)) && stall > 0 && i < |rows| && rows[i].at <= t
    requires i + 1 < |rows| ==> t < rows[i + 1].at
    ensures var mode := Entered(rows[i], if i == 0 then None else Some(Points(rows)[i - 1].mode.note.phase));
            Doing(Points(rows), stall, t)
            == if i + 1 == |rows| && rows[i].at + stall <= t && MayStall(mode)
               then Some(StallMode(rows[i].at + stall)) else Some(mode)
  {
    PointsAt(rows, i);
    DoingFrom(Points(rows), stall, i, t);
  }

  /** From an event that ends a turn or starts a tool up to the next event, however long it takes, the
      session waits for the user, or for the tool. */
  lemma WaitsAfter(rows: seq<Event>, stall: int, i: nat, t: int)
    requires InOrder(Points(rows)) && stall > 0 && i < |rows| && rows[i].at <= t
    requires i + 1 < |rows| ==> t < rows[i + 1].at
    ensures rows[i].kind == Stop || rows[i].kind == TurnEnd ==>
              Doing(Points(rows), stall, t) == Some(Mode(OnUser, ShownBy(rows[i], WaitingUser, false)))
    ensures rows[i].kind == PreTool ==>
              Doing(Points(rows), stall, t) == Some(Mode(OnTool, ShownBy(rows[i], WaitingTool, true)))
  {
    DoingAt(rows, stall, i, t);
  }

  lemma ActivePhases(p: Phase)
    ensures ActivePhase(p) <==> p in {Research, Review, Analysis, Implement, Test, Operate, ActiveUnspecified}
  {
    assert p.Research? || p.Review? || p.Analysis? || p.Implement? || p.Test? || p.Operate? || p.ActiveUnspecified?
           || p.WaitingTool? || p.WaitingUser? || p.SuspectedStall? || p.IdlePhase?;
  }

  /** From the end of a tool up to the next event the session is active, with no tool running and in some
      active phase, its own if the event names one; after the last event it is active for the stall time and
      stalled from then on. */
  lemma ActsAfterTool(rows: seq<Event>, stall: int, i: nat, t: int)
    requires InOrder(Points(rows)) && stall > 0 && i < |rows| && rows[i].at <= t && rows[i].kind == PostTool
    requires i + 1 < |rows| ==> t < rows[i + 1].at
    ensures Doing(Points(rows), stall, t).Some?
    ensures var e, m := rows[i], Doing(Points(rows), stall, t).value;
            if i + 1 == |rows| && e.at + stall <= t then m == InferredStall(e.at + stall)
            else
              && m == Mode(Active, ShownBy(e, m.note.phase, false))
              && m.note.phase in {Research, Review, Analysis, Implement, Test, Operate, ActiveUnspecified}
              && (e.phase in {Research, Review, Analysis, Implement, Test, Operate, ActiveUnspecified} ==>
                    m.note.phase == e.phase)
  {
    DoingAt(rows, stall, i, t);
    var mode := Entered(rows[i], if i == 0 then None else Some(Points(rows)[i - 1].mode.note.phase));
    assert mode == Mode(Active, ShownBy(rows[i], mode.note.phase, false));
    ActivePhases(mode.note.phase);
    ActivePhases(rows[i].phase);
  }

  /** Any other event shows the phase that it names: waiting, stalled and idle phases last up to the next
      event; an active one does too while its tool runs or another event follows, and otherwise it turns into
      a stall after the stall time. */
  lemma ShowsNamedPhase(rows: seq<Event>, stall: int, i: nat, t: int)
    requires InOrder(Points(rows)) && stall > 0 && i < |rows| && rows[i].at <= t
    requires i + 1 < |rows| ==> t < rows[i + 1].at
    requires rows[i].kind in {SessionStart, UserPrompt, PhaseMark, TurnStart}
    ensures var e := rows[i];
            Doing(Points(rows), stall, t)
            == Some(if e.phase == WaitingTool then Mode(OnTool, ShownBy(e, WaitingTool, e.toolActive))
                    else if e.phase == WaitingUser then Mode(OnUser, ShownBy(e, WaitingUser, false))
                    else if e.phase == SuspectedStall then Mode(Stalled, ShownBy(e, SuspectedStall, false))
                    else if e.phase == IdlePhase then Mode(Resting, ShownBy(e, IdlePhase, false))
                    else if i + 1 == |rows| && e.at + stall <= t && !e.toolActive then InferredStall(e.at + stall)
                    else Mode(Active, ShownBy(e, e.phase, e.toolActive)))
  {
    DoingAt(rows, stall, i, t);
  }

  // ---- The lane builder -------------------------------------------------------------------

  class CodexReport {
    const scope: Scope
    var segments: seq<Span<Note>>
    var active: int
    var waiting: int
    var stalled: int
    var activeIntervals: seq<Interval>

    constructor (scope: Scope)
      ensures this.scope == scope && State() == Tally([], 0, 0, 0, [])
    {
      this.scope := scope;
      segments, active, waiting, stalled, activeIntervals := [], 0, 0, 0, [];
    }

    function State(): Tally
      reads this
    {
      Tally(segments, active, waiting, stalled, activeIntervals)
    }

    method AppendCodexInterval(start: int, end: int, mode: Mode)
      modifies this
      ensures State() == Extended(old(State()), scope, start, end, mode)
    {
      var clipped := Clip(start, end, scope.windowStart, scope.windowEnd);
      if clipped.None? {
        return;
      }
      var left, right := clipped.value.start, clipped.value.end;
      if segments != [] && segments[|segments| - 1].end == left && segments[|segments| - 1].meta == mode.note {
        segments := segments[..|segments| - 1] + [segments[|segments| - 1].(end := right)];
      } else {
        segments := segments + [Span(left, right, mode.note)];
      }
      var duration := right - left;
      if mode.state == Active {
        active := active + duration;
        activeIntervals := activeIntervals + [Interval(left, right)];
      } else if mode.state == OnTool || mode.state == OnUser {
        waiting := waiting + duration;
      } else if mode.state == Stalled {
        stalled := stalled + duration;
      }
    }

    /** Append a stretch on which the session does one thing. */
    method Hold(start: int, end: int, mode: Mode, ghost base: Tally, ghost points: seq<Point>, ghost lo: int)
      requires Steady(points, scope, start, end, mode) && lo == Max(scope.windowStart, points[0].at)
      requires Covers(State(), base, points, scope.stall, lo, Reach(lo, scope.windowEnd, start))
      modifies this
      ensures Covers(State(), base, points, scope.stall, lo, Reach(lo, scope.windowEnd, end))
    {
      Advance(State(), base, points, scope, lo, start, end, mode);
      AppendCodexInterval(start, end, mode);
    }

    /** Hold an active mode until it counts as stalled, then stall to the effective end. */
    method AddStall(previousAt: int, mode: Mode, ghost base: Tally, ghost points: seq<Point>, ghost lo: int)
      requires points != [] && InOrder(points) && scope.stall > 0
      requires Last(points) == Point(previousAt, mode) && MayStall(mode)
      requires scope.Final() > previousAt + scope.stall
      requires lo == Max(scope.windowStart, points[0].at)
      requires Covers(State(), base, points, scope.stall, lo, Reach(lo, scope.windowEnd, previousAt))
      modifies this
      ensures Covers(State(), base, points, scope.stall, lo, Reach(lo, scope.windowEnd, scope.Final()))
    {
      var stallAt := previousAt + scope.stall;
      TailHolds(points, scope, stallAt);
      Hold(previousAt, stallAt, mode, base, points, lo);
      StallToEnd(stallAt, base, points, lo);
    }

    method StallToEnd(stallAt: int, ghost base: Tally, ghost points: seq<Point>, ghost lo: int)
      requires points != [] && InOrder(points) && scope.stall > 0
      requires stallAt == Last(points).at + scope.stall < scope.Final() && MayStall(Last(points).mode)
      requires lo == Max(scope.windowStart, points[0].at)
      requires Covers(State(), base, points, scope.stall, lo, Reach(lo, scope.windowEnd, stallAt))
      modifies this
      ensures Covers(State(), base, points, scope.stall, lo, Reach(lo, scope.windowEnd, scope.Final()))
    {
      TailStalls(points, scope, scope.Final());
      Hold(stallAt, scope.Final(), StallMode(stallAt), base, points, lo);
    }

    /** Hold the mode after the last event to the effective end, splitting off a derived stall. */
    method AddTail(previousAt: int, mode: Mode, ghost base: Tally, ghost points: seq<Point>, ghost lo: int)
      requires points != [] && InOrder(points) && scope.stall > 0
      requires Last(points) == Point(previousAt, mode)
      requires lo == Max(scope.windowStart, points[0].at)
      requires Covers(State(), base, points, scope.stall, lo, Reach(lo, scope.windowEnd, previousAt))
      modifies this
      ensures Covers(State(), base, points, scope.stall, lo,
                     Reach(lo, scope.windowEnd, Max(previousAt, scope.Final())))
    {
      var finalEnd := Min(scope.windowEnd, scope.asOf);
      if finalEnd > previousAt {
        if mode.state == Active && !mode.note.toolActive && finalEnd > previousAt + scope.stall {
          AddStall(previousAt, mode, base, points, lo);
        } else {
          TailHolds(points, scope, finalEnd);
          Hold(previousAt, finalEnd, mode, base, points, lo);
        }
      }
    }

    /** Hold the mode up to the next event, and enter the mode that the event leads to. */
    method AddEvent(row: Event, previousAt: int, mode: Mode, ghost base: Tally, ghost points: seq<Point>, ghost lo: int)
      returns (next: Mode)
      requires Steady(points, scope, previousAt, row.at, mode) && lo == Max(scope.windowStart, points[0].at)
      requires Covers(State(), base, points, scope.stall, lo, Reach(lo, scope.windowEnd, previousAt))
      modifies this
      ensures Covers(State(), base, points, scope.stall, lo, Reach(lo, scope.windowEnd, row.at))
      ensures next == Entered(row, Some(mode.note.phase))
    {
      if row.at > previousAt {
        Hold(previousAt, row.at, mode, base, points, lo);
      }
      next := Entered(row, Some(mode.note.phase));
    }

    /** Hold each event's mode up to the next event; what follows the last one is still to be added. */
    method AddEvents(rows: seq<Event>, ghost points: seq<Point>, ghost lo: int)
      returns (previousAt: int, mode: Mode)
      requires rows != [] && points == Points(rows) && InOrder(points) && segments == []
      requires scope.stall > 0 && lo == Max(scope.windowStart, rows[0].at)
      modifies this
      ensures Last(points) == Point(previousAt, mode)
      ensures Covers(State(), old(State()), points, scope.stall, lo, Reach(lo, scope.windowEnd, previousAt))
    {
      ghost var base := State();
      EmptyCovers(State(), points, scope.stall, lo);
      assert Reach(lo, scope.windowEnd, rows[0].at) == lo;
      PointsAt(rows, 0);
      mode := Entered(rows[0], None);
      previousAt := rows[0].at;
      var k := 1;
      while k < |rows|
        invariant 1 <= k <= |rows|
        invariant points[k - 1] == Point(previousAt, mode)
        invariant Covers(State(), base, points, scope.stall, lo, Reach(lo, scope.windowEnd, previousAt))
      {
        var row := rows[k];
        BetweenPoints(points, scope, k - 1);
        PointsAt(rows, k);
        mode := AddEvent(row, previousAt, mode, base, points, lo);
        previousAt := row.at;
        k := k + 1;
      }
    }

    /** Tile one lane from its events in time order. */
    method AddLane(rows: seq<Event>)
      requires rows != [] && InOrder(Points(rows)) && segments == []
      requires scope.stall > 0
      modifies this
      ensures var lo := Max(scope.windowStart, rows[0].at);
              Covers(State(), old(State()), Points(rows), scope.stall, lo, LaneEnd(Points(rows), scope))
    {
      ghost var lo, points := Max(scope.windowStart, rows[0].at), Points(rows);
      var previousAt, mode := AddEvents(rows, points, lo);
      AddTail(previousAt, mode, old(State()), points, lo);
    }

    /** Close the lane and start the next one without segments. */
    method FinishLane() returns (lane: seq<Span<Note>>)
      modifies this
      ensures lane == old(segments) && State() == old(State()).(segments := [])
    {
      lane := segments;
      segments := [];
    }
  }

  // ---- What a finished lane means -----------------------------------------------------------

  lemma {:induction false} ModeAtStarted(points: seq<Point>, t: int)
    requires points != [] && points[0].at <= t
    ensures ModeAt(points, t).Some?
  {
    if Last(points).at > t {
      ModeAtStarted(points[..|points| - 1], t);
    }
  }

  /** From its first event on, a session is always in exactly one of the four kinds of state. */
  lemma InSomeState(points: seq<Point>, stall: int, lo: int, hi: int, t: int)
    requires points != [] && points[0].at <= lo <= t < hi
    ensures || t in In(points, stall, {Active}, lo, hi) || t in In(points, stall, WAITING, lo, hi)
            || t in In(points, stall, {Stalled}, lo, hi) || t in In(points, stall, {Resting}, lo, hi)
  {
    ModeAtStarted(points, t);
    var m := Doing(points, stall, t).value;
    assert m.state == Active || m.state == OnTool || m.state == OnUser || m.state == Stalled || m.state == Resting;
  }

  /** Active, waiting and stalled time together make up the lane except for its idle phases. */
  lemma LaneTimeSplits(points: seq<Point>, stall: int, lo: int, hi: int)
    requires points != [] && points[0].at <= lo <= hi
    ensures |In(points, stall, {Active}, lo, hi)| + |In(points, stall, WAITING, lo, hi)|
            + |In(points, stall, {Stalled}, lo, hi)| == hi - lo - |In(points, stall, {Resting}, lo, hi)|
  {
    var a, b := In(points, stall, {Active}, lo, hi), In(points, stall, WAITING, lo, hi);
    var c, d := In(points, stall, {Stalled}, lo, hi), In(points, stall, {Resting}, lo, hi);
    forall t | t in Ticks(lo, hi) ensures t in a + b + c + d {
      InSomeState(points, stall, lo, hi, t);
    }
    assert a + b + c + d == Ticks(lo, hi);
    FourParts(a, b, c, d);
    TicksSize(lo, hi);
  }

  lemma FourParts(a: set<int>, b: set<int>, c: set<int>, d: set<int>)
    requires a !! b && (a + b) !! c && (a + b + c) !! d
    ensures |a + b + c + d| == |a| + |b| + |c| + |d|
  {
  }

  lemma {:induction false} ModeComesFrom(points: seq<Point>, t: int) returns (i: nat)
    requires ModeAt(points, t).Some?
    ensures i < |points| && ModeAt(points, t).value == points[i].mode
  {
    if Last(points).at <= t {
      i := |points| - 1;
    } else {
      i := ModeComesFrom(points[..|points| - 1], t);
    }
  }

  lemma RecordedModes(rows: seq<Event>, t: int)
    requires ModeAt(Points(rows), t).Some?
    ensures ModeAt(Points(rows), t).value.note.origin.Recorded?
  {
    var i := ModeComesFrom(Points(rows), t);
  }

  /** A derived stall is exactly the tail that begins `stall` ticks after the last event of an active
      session with no tool running; it appears nowhere else and never after a tool start. */
  lemma {:induction false} DerivedStallExactly(s: seq<Span<Note>>, rows: seq<Event>, stall: int,
                                               lo: int, hi: int, i: nat, t: int)
    requires rows != [] && Tiles(s, Points(rows), stall, lo, hi) && i < |s| && At(s[i], t)
    ensures s[i].meta.origin.Derived?
            <==> rows[|rows| - 1].at + stall <= t && MayStall(After(rows))
    ensures s[i].meta.origin.Derived? ==>
              && s[i].meta.origin.stallAt == rows[|rows| - 1].at + stall
              && s[i].meta.phase == SuspectedStall
              && rows[|rows| - 1].kind != PreTool
  {
    var points := Points(rows);
    assert rows[..|rows|] == rows;
    assert Doing(points, stall, t).Some? && Doing(points, stall, t).value.note == s[i].meta;
    if rows[|rows| - 1].at + stall <= t && MayStall(After(rows)) {
    } else {
      assert ModeAt(points, t).Some?;
      RecordedModes(rows, t);
    }
  }
}

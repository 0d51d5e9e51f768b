/** One GPU lane of the daily report: point samples are held until the next sample, and turn
    unknown once they are older than the sample gap. */
module GpuLane {
  import opened Prelude
  import opened Intervals
  import opened Bars
  import opened Tiling

  datatype Sample = Sample(id: int, at: int, state: GpuState, taskName: string, attribution: string,
                           process: string, pid: Option<int>)

  // ---- Meaning ----------------------------------------------------------------------------

  ghost predicate InOrder(rows: seq<Sample>) {
    forall i, j :: 0 <= i < j < |rows| ==> rows[i].at <= rows[j].at
  }

  function Reported(r: Sample): Meta {
    Meta(r.state, r.taskName, r.attribution, r.process, r.pid, r.id)
  }

  function Stale(r: Sample): Meta {
    Meta(Unknown, "", "inferred", "", None, r.id)
  }

  /** The last sample taken at or before `t`. */
  ghost function Latest(rows: seq<Sample>, t: int): Option<Sample> {
    if rows == [] then None
    else if rows[|rows| - 1].at <= t then Some(rows[|rows| - 1])
    else Latest(rows[..|rows| - 1], t)
  }

  /** What is known at `t`: the latest sample while it is younger than the gap, otherwise nothing. */
  ghost function Known(rows: seq<Sample>, gap: Option<int>, t: int): Option<Meta> {
    match Latest(rows, t)
    case None => None
    case Some(r) =>
      if gap.Some? && gap.value > 0 && t >= r.at + gap.value then Some(Stale(r)) else Some(Reported(r))
  }

  /** The segments follow each other from `lo` to `hi` and each carries what is known at its ticks. */
  ghost predicate Tiles(s: seq<Segment>, rows: seq<Sample>, gap: Option<int>, lo: int, hi: int) {
    && RawLane(s, lo, hi)
    && forall i, t :: 0 <= i < |s| && At(s[i], t) ==> Known(rows, gap, t) == Some(s[i].meta)
  }

  /** The ticks of a stretch of the lane on which the state is known to be `state`. */
  ghost function In(rows: seq<Sample>, gap: Option<int>, state: GpuState, lo: int, hi: int): set<int> {
    set t | t in Ticks(lo, hi) && Known(rows, gap, t).Some? && Known(rows, gap, t).value.state == state
  }

  lemma {:induction false} LatestBetween(rows: seq<Sample>, i: nat, t: int)
    requires InOrder(rows) && i < |rows| && rows[i].at <= t
    requires i + 1 < |rows| ==> t < rows[i + 1].at
    ensures Latest(rows, t) == Some(rows[i])
  {
    if i + 1 < |rows| {
      assert t < rows[i + 1].at <= rows[|rows| - 1].at || i + 1 == |rows| - 1;
      LatestBetween(rows[..|rows| - 1], i, t);
    }
  }

  // ---- Appending --------------------------------------------------------------------------

  lemma {:induction false} AppendedTiles(s: seq<Segment>, rows: seq<Sample>, gap: Option<int>,
                                         lo: int, start: int, end: int, meta: Meta)
    requires Tiles(s, rows, gap, lo, start) && start < end
    requires forall t :: start <= t < end ==> Known(rows, gap, t) == Some(meta)
    ensures Tiles(Appended(s, start, end, meta), rows, gap, lo, end)
  {
    AppendedLane(s, lo, start, end, meta);
    AppendedCarries(s, start, end, meta);
  }

  lemma InExtends(rows: seq<Sample>, gap: Option<int>, state: GpuState, lo: int, mid: int, hi: int, meta: Meta)
    requires lo <= mid <= hi
    requires forall t :: mid <= t < hi ==> Known(rows, gap, t) == Some(meta)
    ensures In(rows, gap, state, lo, hi) == In(rows, gap, state, lo, mid)
                                            + (if meta.state == state then Ticks(mid, hi) else {})
    ensures |In(rows, gap, state, lo, hi)| == |In(rows, gap, state, lo, mid)|
                                              + if meta.state == state then hi - mid else 0
  {
    TicksGrow(In(rows, gap, state, lo, mid), In(rows, gap, state, lo, hi), lo, mid, hi, meta.state == state);
  }

  /** While no newer sample exists, what is known is the sample until the gap has passed. */
  lemma KnownFrom(rows: seq<Sample>, gap: Option<int>, i: nat, t: int)
    requires InOrder(rows) && i < |rows| && rows[i].at <= t
    requires i + 1 < |rows| ==> t < rows[i + 1].at
    ensures Known(rows, gap, t)
            == Some(if gap.Some? && gap.value > 0 && t >= rows[i].at + gap.value then Stale(rows[i])
                    else Reported(rows[i]))
  {
    LatestBetween(rows, i, t);
  }

  // ---- The report so far ------------------------------------------------------------------

  /** The current lane's segments and the totals of all lanes. */
  datatype Tally = Tally(segments: seq<Segment>, trainingTotal: int, idleTotal: int, training: seq<Interval>)

  /** The window of the report, the moment it describes, and the sample gap. */
  datatype Scope = Scope(windowStart: int, windowEnd: int, asOf: int, gap: Option<int>) {
    function End(): int {
      Min(windowEnd, asOf)
    }

    predicate Ages(r: Sample, t: int) {
      gap.Some? && gap.value > 0 && t >= r.at + gap.value
    }
  }

  function Extended(y: Tally, w: Scope, start: int, end: int, meta: Meta): Tally {
    match Clip(start, end, w.windowStart, w.windowEnd)
    case None => y
    case Some(v) =>
      var ticks := v.end - v.start;
      Tally(Appended(y.segments, v.start, v.end, meta),
            y.trainingTotal + (if meta.state == Training then ticks else 0),
            y.idleTotal + (if meta.state == Idle then ticks else 0),
            y.training + (if meta.state == Training then [v] else []))
  }

  /** The lane is tiled from `lo` to `hi`, and since `base` the totals have grown by exactly the
      ticks of this lane known to be training or idle. */
  ghost predicate Covers(y: Tally, base: Tally, rows: seq<Sample>, gap: Option<int>, lo: int, hi: int) {
    && lo <= hi && base.training <= y.training
    && Tiles(y.segments, rows, gap, lo, hi)
    && y.trainingTotal == base.trainingTotal + |In(rows, gap, Training, lo, hi)|
    && y.idleTotal == base.idleTotal + |In(rows, gap, Idle, lo, hi)|
    && Cover(y.training[|base.training|..]) == In(rows, gap, Training, lo, hi)
    && Sum(Lengths(y.training[|base.training|..])) == |In(rows, gap, Training, lo, hi)|
  }

  lemma ExtendedCovers(y: Tally, base: Tally, rows: seq<Sample>, gap: Option<int>, lo: int, from: int,
                       w: Scope, start: int, end: int, meta: Meta)
    requires Covers(y, base, rows, gap, lo, from) && from < end
    requires Clip(start, end, w.windowStart, w.windowEnd) == Some(Interval(from, end))
    requires forall t :: from <= t < end ==> Known(rows, gap, t) == Some(meta)
    ensures Covers(Extended(y, w, start, end, meta), base, rows, gap, lo, end)
  {
    AppendedTiles(y.segments, rows, gap, lo, from, end, meta);
    InExtends(rows, gap, Training, lo, from, end, meta);
    InExtends(rows, gap, Idle, lo, from, end, meta);
    TailGrows(y.training, Extended(y, w, start, end, meta).training, |base.training|, from, end,
              meta.state == Training);
  }

  /** Appending one stretch moves the tiled part of the lane on to the end of the stretch. */
  lemma Advance(y: Tally, base: Tally, rows: seq<Sample>, w: Scope, lo: int, start: int, end: int, meta: Meta)
    requires rows != [] && lo == Max(w.windowStart, rows[0].at) && rows[0].at <= start
    requires end <= w.End() && (start <= end || end == w.End())
    requires Covers(y, base, rows, w.gap, lo, Reach(lo, w.End(), start))
    requires forall t :: start <= t < end ==> Known(rows, w.gap, t) == Some(meta)
    ensures Covers(Extended(y, w, start, end, meta), base, rows, w.gap, lo, Reach(lo, w.End(), end))
  {
    if Max(start, lo) < end {
      ExtendedCovers(y, base, rows, w.gap, lo, Reach(lo, w.End(), start), w, start, end, meta);
    }
  }

  /** One piece of a lane: the ticks from `start` to `end` on which sample `i` is fresh or stale. */
  datatype Stretch = Stretch(i: nat, start: int, end: int, stale: bool)

  function MetaOf(rows: seq<Sample>, s: Stretch): Meta
    requires s.i < |rows|
  {
    if s.stale then Stale(rows[s.i]) else Reported(rows[s.i])
  }

  /** Hold sample `i` until `end`: as reported while fresh, then as stale. */
  function Held(w: Scope, rows: seq<Sample>, i: nat, end: int): (r: seq<Stretch>)
    requires i < |rows|
    ensures forall s :: s in r ==> s.i == i
  {
    var start := rows[i].at;
    if w.gap.Some? && w.gap.value > 0 && start + w.gap.value < end then
      [Stretch(i, start, start + w.gap.value, false), Stretch(i, start + w.gap.value, end, true)]
    else [Stretch(i, start, end, false)]
  }

  /** What one sample contributes; a sample superseded at its own time contributes nothing. */
  function Contribution(w: Scope, rows: seq<Sample>, i: nat): (r: seq<Stretch>)
    requires i < |rows|
    ensures forall s :: s in r ==> s.i == i
  {
    if i + 1 == |rows| then Held(w, rows, i, w.End())
    else if rows[i + 1].at <= rows[i].at then []
    else Held(w, rows, i, Min(w.End(), rows[i + 1].at))
  }

  function AllExtended(y: Tally, w: Scope, rows: seq<Sample>, pieces: seq<Stretch>): Tally
    requires forall s :: s in pieces ==> s.i < |rows|
    decreases |pieces|
  {
    if pieces == [] then y
    else
      var s := pieces[0];
      AllExtended(Extended(y, w, s.start, s.end, MetaOf(rows, s)), w, rows, pieces[1..])
  }

  /** A piece that lies before the next sample and entirely on one side of going stale. */
  ghost predicate Proper(rows: seq<Sample>, w: Scope, s: Stretch) {
    && InOrder(rows) && s.i < |rows| && rows[s.i].at <= s.start
    && s.end <= w.End() && (s.start <= s.end || s.end == w.End())
    && (s.i + 1 < |rows| ==> s.end <= rows[s.i + 1].at)
    && (if s.stale then w.Ages(rows[s.i], s.start) else !w.Ages(rows[s.i], s.end - 1))
  }

  /** Proper pieces that take the tiled part of the lane from `from` to `to`. */
  ghost predicate Chain(rows: seq<Sample>, w: Scope, lo: int, pieces: seq<Stretch>, from: int, to: int) {
    if pieces == [] then from == to
    else
      && Proper(rows, w, pieces[0])
      && from == Reach(lo, w.End(), pieces[0].start)
      && Chain(rows, w, lo, pieces[1..], Reach(lo, w.End(), pieces[0].end), to)
  }

  lemma PieceAdvances(y: Tally, base: Tally, rows: seq<Sample>, w: Scope, lo: int, s: Stretch)
    requires Proper(rows, w, s) && lo == Max(w.windowStart, rows[0].at)
    requires Covers(y, base, rows, w.gap, lo, Reach(lo, w.End(), s.start))
    ensures Covers(Extended(y, w, s.start, s.end, MetaOf(rows, s)), base, rows, w.gap, lo, Reach(lo, w.End(), s.end))
  {
    assert s.i > 0 ==> rows[0].at <= rows[s.i].at;
    forall t | s.start <= t < s.end ensures Known(rows, w.gap, t) == Some(MetaOf(rows, s)) {
      KnownFrom(rows, w.gap, s.i, t);
    }
    Advance(y, base, rows, w, lo, s.start, s.end, MetaOf(rows, s));
  }

  lemma {:induction false} ChainAdvances(y: Tally, base: Tally, rows: seq<Sample>, w: Scope, lo: int,
                                         pieces: seq<Stretch>, from: int, to: int)
    requires rows != [] && lo == Max(w.windowStart, rows[0].at)
    requires Chain(rows, w, lo, pieces, from, to)
    requires Covers(y, base, rows, w.gap, lo, from)
    requires forall s :: s in pieces ==> s.i < |rows|
    ensures Covers(AllExtended(y, w, rows, pieces), base, rows, w.gap, lo, to)
    decreases |pieces|
  {
    if pieces != [] {
      var s := pieces[0];
      var next := Extended(y, w, s.start, s.end, MetaOf(rows, s));
      PieceAdvances(y, base, rows, w, lo, s);
      assert forall x :: x in pieces[1..] ==> x in pieces;
      ChainAdvances(next, base, rows, w, lo, pieces[1..], Reach(lo, w.End(), s.end), to);
    }
  }

  lemma ContributionChain(rows: seq<Sample>, w: Scope, lo: int, i: nat)
    requires InOrder(rows) && i < |rows|
    ensures Chain(rows, w, lo, Contribution(w, rows, i), Reach(lo, w.End(), rows[i].at),
                  if i + 1 < |rows| then Reach(lo, w.End(), rows[i + 1].at) else Max(lo, w.End()))
  {
    assert i + 1 < |rows| ==> rows[i].at <= rows[i + 1].at;
    var pieces := Contribution(w, rows, i);
    if |pieces| == 2 {
      assert pieces[1..][1..] == [];
    }
  }

  /** The tick at which sample `i` is superseded or the lane ends. */
  function HeldTo(w: Scope, rows: seq<Sample>, i: nat): int
    requires i < |rows|
  {
    if i + 1 < |rows| then Min(w.End(), rows[i + 1].at) else w.End()
  }

  predicate GoesStale(w: Scope, r: Sample, end: int) {
    w.gap.Some? && w.gap.value > 0 && r.at + w.gap.value < end
  }

  /** The report after holding one sample until `end`. */
  function HeldTally(y: Tally, w: Scope, r: Sample, end: int): Tally {
    if GoesStale(w, r, end) then
      var staleAt := r.at + w.gap.value;
      Extended(Extended(y, w, r.at, staleAt, Reported(r)), w, staleAt, end, Stale(r))
    else Extended(y, w, r.at, end, Reported(r))
  }

  /** Appending both parts of a sample's time amounts to the same when the second part is empty. */
  lemma HeldInTwo(y: Tally, w: Scope, r: Sample, end: int)
    requires w.gap.Some? && w.gap.value > 0
    ensures HeldTally(y, w, r, end)
            == Extended(Extended(y, w, r.at, Min(r.at + w.gap.value, end), Reported(r)),
                        w, r.at + w.gap.value, end, Stale(r))
  {
    if end <= r.at + w.gap.value {
      EmptyStretch(Extended(y, w, r.at, end, Reported(r)), w, r.at + w.gap.value, end, Stale(r));
    }
  }

  lemma EmptyStretch(y: Tally, w: Scope, start: int, end: int, meta: Meta)
    requires end <= start
    ensures Extended(y, w, start, end, meta) == y
  {
  }

  lemma OnePiece(y: Tally, w: Scope, rows: seq<Sample>, a: Stretch)
    requires a.i < |rows|
    ensures AllExtended(y, w, rows, [a]) == Extended(y, w, a.start, a.end, MetaOf(rows, a))
  {
    assert [a][1..] == [];
  }

  lemma TwoPieces(y: Tally, w: Scope, rows: seq<Sample>, a: Stretch, b: Stretch)
    requires a.i < |rows| && b.i < |rows|
    ensures AllExtended(y, w, rows, [a, b])
            == Extended(Extended(y, w, a.start, a.end, MetaOf(rows, a)), w, b.start, b.end, MetaOf(rows, b))
  {
    assert [a, b][1..] == [b];
    OnePiece(Extended(y, w, a.start, a.end, MetaOf(rows, a)), w, rows, b);
  }

  lemma HeldContribution(y: Tally, w: Scope, rows: seq<Sample>, i: nat)
    requires i < |rows| && (i + 1 < |rows| ==> rows[i].at < rows[i + 1].at)
    ensures AllExtended(y, w, rows, Contribution(w, rows, i)) == HeldTally(y, w, rows[i], HeldTo(w, rows, i))
  {
    var start, end := rows[i].at, HeldTo(w, rows, i);
    if GoesStale(w, rows[i], end) {
      TwoPieces(y, w, rows, Stretch(i, start, start + w.gap.value, false),
                Stretch(i, start + w.gap.value, end, true));
    } else {
      OnePiece(y, w, rows, Stretch(i, start, end, false));
    }
  }

  // ---- The lane builder -------------------------------------------------------------------

  class GpuReport {
    const scope: Scope
    var segments: seq<Segment>
    var trainingTotal: int
    var idleTotal: int
    var training: seq<Interval>

    constructor (scope: Scope)
      ensures this.scope == scope && State() == Tally([], 0, 0, [])
    {
      this.scope := scope;
      segments, trainingTotal, idleTotal, training := [], 0, 0, [];
    }

    function State(): Tally
      reads this
    {
      Tally(segments, trainingTotal, idleTotal, training)
    }

    method AppendGpuInterval(start: int, end: int, meta: Meta)
      modifies this
      ensures State() == Extended(old(State()), scope, start, end, meta)
    {
      var clipped := Clip(start, end, scope.windowStart, scope.windowEnd);
      if clipped.None? {
        return;
      }
      var left, right := clipped.value.start, clipped.value.end;
      if segments != [] && segments[|segments| - 1].end == left && segments[|segments| - 1].meta == meta {
        segments := segments[..|segments| - 1] + [segments[|segments| - 1].(end := right)];
      } else {
        segments := segments + [Span(left, right, meta)];
      }
      var duration := right - left;
      if meta.state == Training {
        trainingTotal := trainingTotal + duration;
        training := training + [Interval(left, right)];
      } else if meta.state == Idle {
        idleTotal := idleTotal + duration;
      }
    }

    /** One iteration over the samples of a lane, when a later sample follows. */
    method AddHeldRow(rows: seq<Sample>, index: nat)
      requires index + 1 < |rows| && rows[index].at < rows[index + 1].at
      modifies this
      ensures State() == HeldTally(old(State()), scope, rows[index], HeldTo(scope, rows, index))
    {
      var row, start, nextAt := rows[index], rows[index].at, rows[index + 1].at;
      var end := Min(Min(nextAt, scope.asOf), scope.windowEnd);
      assert end == HeldTo(scope, rows, index);
      if scope.gap.Some? && scope.gap.value > 0 && nextAt - start > scope.gap.value {
        var staleAt := start + scope.gap.value;
        HeldInTwo(State(), scope, row, end);
        AppendGpuInterval(start, Min(staleAt, end), Reported(row));
        AppendGpuInterval(staleAt, end, Stale(row));
      } else {
        assert !GoesStale(scope, row, end);
        AppendGpuInterval(start, end, Reported(row));
      }
    }

    /** The last sample of a lane is held until the effective end. */
    method AddLastRow(rows: seq<Sample>, index: nat)
      requires index + 1 == |rows|
      modifies this
      ensures State() == HeldTally(old(State()), scope, rows[index], HeldTo(scope, rows, index))
    {
      var row, start := rows[index], rows[index].at;
      var finalEnd := Min(scope.asOf, scope.windowEnd);
      if scope.gap.Some? && scope.gap.value > 0 {
        var staleAfter := start + scope.gap.value;
        AppendGpuInterval(start, Min(finalEnd, staleAfter), Reported(row));
        if finalEnd > staleAfter {
          AppendGpuInterval(staleAfter, finalEnd, Stale(row));
        }
      } else {
        AppendGpuInterval(start, finalEnd, Reported(row));
      }
    }

    /** Tile one lane from its samples in time order. */
    method AddLane(rows: seq<Sample>)
      requires rows != [] && InOrder(rows) && segments == []
      modifies this
      ensures var lo := Max(scope.windowStart, rows[0].at);
              Covers(State(), old(State()), rows, scope.gap, lo, Max(lo, Min(scope.windowEnd, scope.asOf)))
    {
      ghost var lo := Max(scope.windowStart, rows[0].at);
      EmptyCovers(State(), rows, scope.gap, lo);
      for index := 0 to |rows|
        invariant Covers(State(), old(State()), rows, scope.gap, lo,
                         if index < |rows| then Reach(lo, scope.End(), rows[index].at) else Max(lo, scope.End()))
      {
        ContributionChain(rows, scope, lo, index);
        ChainAdvances(State(), old(State()), rows, scope, lo, Contribution(scope, rows, index),
                      Reach(lo, scope.End(), rows[index].at),
                      if index + 1 < |rows| then Reach(lo, scope.End(), rows[index + 1].at) else Max(lo, scope.End()));
        if index + 1 < |rows| {
          if rows[index + 1].at <= rows[index].at {
            continue;
          }
          HeldContribution(State(), scope, rows, index);
          AddHeldRow(rows, index);
        } else {
          HeldContribution(State(), scope, rows, index);
          AddLastRow(rows, index);
        }
      }
    }

    /** Close the lane: hand out its display bars and start the next lane without segments. */
    method FinishLane(mergeGap: int) returns (bars: seq<Bar>)
      modifies this
      ensures bars == Coalesced(old(segments), mergeGap)
      ensures State() == old(State()).(segments := [])
    {
      bars := CoalesceGpuSegments(segments, mergeGap);
      segments := [];
    }
  }

  lemma EmptyCovers(y: Tally, rows: seq<Sample>, gap: Option<int>, lo: int)
    requires y.segments == []
    ensures Covers(y, y, rows, gap, lo, lo)
  {
    assert forall state :: In(rows, gap, state, lo, lo) == {};
    assert y.training[|y.training|..] == [];
  }

  // ---- What a finished lane means -----------------------------------------------------------

  /** The intervals during which samples of the given state may speak for their GPU. */
  ghost function Credits(rows: seq<Sample>, state: GpuState, gap: int): seq<Interval> {
    if rows == [] then []
    else
      var last := rows[|rows| - 1];
      Credits(rows[..|rows| - 1], state, gap)
      + if last.state == state then [Interval(last.at, last.at + gap)] else []
  }

  ghost function Samples(rows: seq<Sample>, state: GpuState): nat {
    if rows == [] then 0
    else Samples(rows[..|rows| - 1], state) + if rows[|rows| - 1].state == state then 1 else 0
  }

  lemma {:induction false} SamplesConcat(a: seq<Sample>, b: seq<Sample>, state: GpuState)
    ensures Samples(a + b, state) == Samples(a, state) + Samples(b, state)
  {
    if b == [] {
      assert a + b == a;
    } else {
      assert (a + b)[..|a + b| - 1] == a + b[..|b| - 1];
      SamplesConcat(a, b[..|b| - 1], state);
    }
  }

  lemma {:induction false} CreditsSum(rows: seq<Sample>, state: GpuState, gap: nat)
    ensures Sum(Lengths(Credits(rows, state, gap))) == gap * Samples(rows, state)
  {
    if rows != [] {
      var init, last := rows[..|rows| - 1], rows[|rows| - 1];
      CreditsSum(init, state, gap);
      if last.state == state {
        LengthsSnoc(Credits(init, state, gap), Interval(last.at, last.at + gap));
        OneMore(gap, Samples(init, state));
      } else {
        assert Credits(rows, state, gap) == Credits(init, state, gap);
      }
    }
  }

  lemma OneMore(gap: int, n: int)
    ensures gap * (n + 1) == gap * n + gap
  {
  }

  lemma {:induction false} LatestCredits(rows: seq<Sample>, state: GpuState, gap: int, t: int)
    requires Latest(rows, t).Some?
    ensures var r := Latest(rows, t).value;
            r.at <= t && (r.state == state && t < r.at + gap ==> t in Cover(Credits(rows, state, gap)))
  {
    var last := rows[|rows| - 1];
    var init := rows[..|rows| - 1];
    var front := Credits(init, state, gap);
    assert front + [] == front;
    CoverSnoc(front, Interval(last.at, last.at + gap));
    if last.at > t {
      LatestCredits(init, state, gap, t);
    }
  }

  /** No sample speaks for longer than the gap: an observed state lasts at most the gap times the
      number of samples that reported it. */
  lemma CreditBound(rows: seq<Sample>, gap: int, state: GpuState, lo: int, hi: int)
    requires gap > 0 && state != Unknown
    ensures |In(rows, Some(gap), state, lo, hi)| <= gap * Samples(rows, state)
  {
    var credits := Credits(rows, state, gap);
    var seen := In(rows, Some(gap), state, lo, hi);
    forall t | t in seen ensures t in Cover(credits) {
      LatestCredits(rows, state, gap, t);
    }
    SubsetSize(seen, Cover(credits));
    CoverAtMostLengths(credits);
    CreditsSum(rows, state, gap);
  }
}

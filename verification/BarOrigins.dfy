/** Where a display bar comes from: the raw segments at its two ends, the name it shows, and how many
    short gaps it bridges. */
module BarOrigins {
  import opened Tiling
  import opened Bars
  import opened BarTheorems

  // ---- The ends of a bar --------------------------------------------------------------------------

  /** The bar begins with segment `i`, whose state and details it shows, and ends with segment `j`. */
  ghost predicate Joins(b: Bar, s: seq<Segment>, i: int, j: int) {
    && 0 <= i <= j < |s|
    && b.start == s[i].start && b.end == s[j].end
    && b.firstSample == s[i].meta.sampleId && b.lastSample == s[j].meta.sampleId
    && b.state == s[i].meta.state && b.attribution == s[i].meta.attribution && b.process == s[i].meta.process
    && b.taskName == Family(s[i].meta.state, s[i].meta.attribution, s[i].meta.taskName, s[i].meta.process)
  }

  ghost predicate Originates(b: Bar, s: seq<Segment>) {
    exists i, j :: Joins(b, s, i, j)
  }

  /** The bars, in order, begin and end with raw segments that are in order. */
  ghost predicate AllOriginate(p: seq<Bar>, s: seq<Segment>) {
    forall b :: b in p ==> Originates(b, s)
  }

  lemma OriginatesLonger(b: Bar, s: seq<Segment>, x: Segment)
    requires Originates(b, s)
    ensures Originates(b, s + [x])
  {
    var i, j :| Joins(b, s, i, j);
    assert Joins(b, s + [x], i, j);
  }

  lemma AbsorbOriginates(p: seq<Bar>, s: seq<Segment>, x: Segment)
    requires AllOriginate(p, s)
    ensures AllOriginate(Absorb(p, x), s + [x])
  {
    var all := s + [x];
    assert Joins(Fresh(x), all, |s|, |s|);
    forall b | b in p ensures Originates(b, all) {
      OriginatesLonger(b, s, x);
    }
    if p != [] {
      var last := p[|p| - 1];
      assert last in p;
      var i, j :| Joins(last, s, i, j);
      assert Joins(MergePair(last, Fresh(x), 0), all, i, |s|);
    }
  }

  lemma {:induction false} PrepareOriginates(s: seq<Segment>)
    ensures AllOriginate(Prepare(s), s)
  {
    if s != [] {
      var init := s[..|s| - 1];
      PrepareOriginates(init);
      AbsorbOriginates(Prepare(init), init, s[|s| - 1]);
      assert s == init + [s[|s| - 1]];
    }
  }

  /** Where segments are in order of time, so are the indices of a later bar's end and an earlier one's start. */
  lemma {:induction false} StartsInOrder(s: seq<Segment>, lo: int, hi: int, i: nat, j: nat)
    requires RawLane(s, lo, hi) && i < |s| && j < |s| && s[i].start < s[j].end
    ensures i <= j
  {
    var n := |s| - 1;
    SegmentsInside(s[..n], lo, s[n].start);
    assert j < n ==> s[..n][j] in s[..n];
    if i < n && j < n {
      StartsInOrder(s[..n], lo, s[n].start, i, j);
    }
  }

  lemma JoinedOriginates(p: seq<Bar>, threshold: int, s: seq<Segment>, lo: int, mid: int, hi: int)
    requires RawLane(s, lo, hi) && Lane(p, mid, hi) && AllOriginate(p, s) && Foldable(p, threshold)
    ensures AllOriginate(Joined(p, threshold), s)
  {
    var n := QuietRun(p[1..]);
    var left, right := p[0], p[n + 1];
    LaneOrder(p, mid, hi);
    assert left in p && right in p;
    var i, i' :| Joins(left, s, i, i');
    var k, j :| Joins(right, s, k, j);
    StartsInOrder(s, lo, hi, i, j);
    var joined := MergePair(left, right, Total(p[1..n + 1]));
    assert Joins(joined, s, i, j);
    forall b | b in Joined(p, threshold) ensures Originates(b, s) {
      assert b == joined || b in p[n + 2..];
    }
  }

  lemma {:induction false} FoldOriginates(p: seq<Bar>, threshold: int, s: seq<Segment>, lo: int, mid: int, hi: int)
    requires RawLane(s, lo, hi) && lo <= mid && Prepared(p, mid, hi) && AllOriginate(p, s)
    ensures AllOriginate(Fold(p, threshold), s)
    decreases |p|
  {
    if p != [] {
      if Foldable(p, threshold) {
        JoinedOriginates(p, threshold, s, lo, mid, hi);
        JoinPrepared(p, threshold, mid, hi);
        FoldOriginates(Joined(p, threshold), threshold, s, lo, mid, hi);
      } else {
        assert forall b :: b in p[1..] ==> b in p;
        assert p[0] in p;
        FoldOriginates(p[1..], threshold, s, lo, p[0].end, hi);
      }
    }
  }

  /** Every display bar starts where a raw segment starts, with that segment's state, name, attribution and
      sample, and ends where a raw segment ends, with that one's sample. */
  lemma BarsOriginate(s: seq<Segment>, threshold: int, lo: int, hi: int)
    requires RawLane(s, lo, hi)
    ensures AllOriginate(Coalesced(s, threshold), s)
  {
    PrepareKeeps(s, lo, hi);
    PrepareOriginates(s);
    FoldOriginates(Prepare(s), threshold, s, lo, lo, hi);
  }

  // ---- How many gaps ------------------------------------------------------------------------------

  ghost function OccupiedBars(p: seq<Bar>): nat {
    if p == [] then 0 else (if Occupied(p[0]) then 1 else 0) + OccupiedBars(p[1..])
  }

  ghost function Gaps(p: seq<Bar>): int {
    if p == [] then 0 else p[0].gapCount + Gaps(p[1..])
  }

  lemma {:induction false} BarsConcat(a: seq<Bar>, b: seq<Bar>)
    ensures OccupiedBars(a + b) == OccupiedBars(a) + OccupiedBars(b) && Gaps(a + b) == Gaps(a) + Gaps(b)
  {
    if a == [] {
      assert a + b == b;
    } else {
      BarsConcat(a[1..], b);
      assert (a + b)[1..] == a[1..] + b;
    }
  }

  ghost predicate Gapless(p: seq<Bar>) {
    forall b :: b in p ==> b.gap == 0 && b.gapCount == 0
  }

  lemma {:induction false} PrepareGapless(s: seq<Segment>)
    ensures Gapless(Prepare(s)) && Gaps(Prepare(s)) == 0
  {
    if s != [] {
      var init := Prepare(s[..|s| - 1]);
      PrepareGapless(s[..|s| - 1]);
      forall b | b in Absorb(init, s[|s| - 1]) ensures b.gap == 0 && b.gapCount == 0 {
        assert init != [] ==> init[|init| - 1] in init;
      }
      NoGaps(Prepare(s));
    }
  }

  lemma {:induction false} NoGaps(p: seq<Bar>)
    requires Gapless(p)
    ensures Gaps(p) == 0
  {
    if p != [] {
      assert p[0] in p;
      NoGaps(p[1..]);
    }
  }

  lemma {:induction false} QuietRunOccupiesNothing(p: seq<Bar>)
    requires forall i :: 0 <= i < |p| ==> Quiet(p[i].state) && p[i].gapCount == 0
    ensures OccupiedBars(p) == 0 && Gaps(p) == 0
  {
    if p != [] {
      QuietRunOccupiesNothing(p[1..]);
    }
  }

  /** Quiet bars have not been joined yet. */
  ghost predicate QuietGapless(p: seq<Bar>) {
    forall b :: b in p ==> b.gapCount >= 0 && (b.gapCount == 0 <==> b.gap == 0) && (Quiet(b.state) ==> b.gap == 0)
  }

  lemma PartsCount(left: Bar, run: seq<Bar>, right: Bar, rest: seq<Bar>)
    ensures var p := [left] + run + [right] + rest;
            && OccupiedBars(p) == OccupiedBars([left]) + OccupiedBars(run) + OccupiedBars([right]) + OccupiedBars(rest)
            && Gaps(p) == Gaps([left]) + Gaps(run) + Gaps([right]) + Gaps(rest)
  {
    BarsConcat([left] + run + [right], rest);
    BarsConcat([left] + run, [right]);
    BarsConcat([left], run);
  }

  lemma MergedCounts(left: Bar, right: Bar, gap: int)
    requires Occupied(left) && BarKey(left) == BarKey(right) && gap > 0
    ensures var m := MergePair(left, right, gap);
            OccupiedBars([m]) + Gaps([m])
            == OccupiedBars([left]) + Gaps([left]) + OccupiedBars([right]) + Gaps([right])
  {
    OneBar(left);
    OneBar(right);
    OneBar(MergePair(left, right, gap));
  }

  lemma JoinedCounts(left: Bar, run: seq<Bar>, right: Bar, rest: seq<Bar>)
    requires Occupied(left) && BarKey(left) == BarKey(right) && Total(run) > 0
    requires forall i :: 0 <= i < |run| ==> Quiet(run[i].state) && run[i].gapCount == 0
    ensures var q, p := [MergePair(left, right, Total(run))] + rest, [left] + run + [right] + rest;
            OccupiedBars(q) + Gaps(q) == OccupiedBars(p) + Gaps(p)
  {
    PartsCount(left, run, right, rest);
    QuietRunOccupiesNothing(run);
    BarsConcat([MergePair(left, right, Total(run))], rest);
    MergedCounts(left, right, Total(run));
  }

  lemma JoinedGaps(p: seq<Bar>, threshold: int, lo: int, hi: int)
    requires Prepared(p, lo, hi) && QuietGapless(p) && Foldable(p, threshold)
    ensures QuietGapless(Joined(p, threshold))
    ensures OccupiedBars(Joined(p, threshold)) + Gaps(Joined(p, threshold)) == OccupiedBars(p) + Gaps(p)
  {
    var n := QuietRun(p[1..]);
    var left, run, right, rest := p[0], p[1..n + 1], p[n + 1], p[n + 2..];
    RunLasts(p, n, lo, hi);
    LaneOrder(p, lo, hi);
    assert p[0].end <= p[1].start < p[1].end <= p[n + 1].start;
    forall i | 0 <= i < n ensures Quiet(run[i].state) && run[i].gapCount == 0 {
      assert run[i] == p[1..][i] && run[i] in p;
    }
    JoinedCounts(left, run, right, rest);
    assert p == [left] + run + [right] + rest;
    JoinedStays(p, threshold);
  }

  lemma JoinedStays(p: seq<Bar>, threshold: int)
    requires QuietGapless(p) && Foldable(p, threshold) && Total(p[1..QuietRun(p[1..]) + 1]) > 0
    requires forall b :: b in p ==> b.gap >= 0
    ensures QuietGapless(Joined(p, threshold))
  {
    var n := QuietRun(p[1..]);
    assert p[0] in p && p[n + 1] in p;
    forall b | b in Joined(p, threshold)
      ensures b.gapCount >= 0 && (b.gapCount == 0 <==> b.gap == 0) && (Quiet(b.state) ==> b.gap == 0)
    {
      assert b == MergePair(p[0], p[n + 1], Total(p[1..n + 1])) || b in p[n + 2..];
    }
  }

  lemma OneBar(b: Bar)
    ensures OccupiedBars([b]) == (if Occupied(b) then 1 else 0) && Gaps([b]) == b.gapCount
  {
    assert [b][1..] == [];
  }

  lemma {:induction false} FoldGaps(p: seq<Bar>, threshold: int, lo: int, hi: int)
    requires Prepared(p, lo, hi) && QuietGapless(p)
    ensures QuietGapless(Fold(p, threshold))
    ensures OccupiedBars(Fold(p, threshold)) + Gaps(Fold(p, threshold)) == OccupiedBars(p) + Gaps(p)
    decreases |p|
  {
    if p != [] {
      if Foldable(p, threshold) {
        JoinPrepared(p, threshold, lo, hi);
        JoinedGaps(p, threshold, lo, hi);
        FoldGaps(Joined(p, threshold), threshold, lo, hi);
      } else {
        assert p[0] in p && forall b :: b in p[1..] ==> b in p;
        FoldGaps(p[1..], threshold, p[0].end, hi);
        assert Fold(p, threshold)[1..] == Fold(p[1..], threshold);
      }
    }
  }

  /** A bar counts a gap exactly when it contains bridged time, and the gaps of all bars together are the
      occupied bars that folding saved. */
  lemma GapsCountFolds(s: seq<Segment>, threshold: int, lo: int, hi: int)
    requires RawLane(s, lo, hi)
    ensures forall b :: b in Coalesced(s, threshold) ==>
              b.gapCount >= 0 && (b.gapCount == 0 <==> b.gap == 0) && (Quiet(b.state) ==> b.gap == 0)
    ensures OccupiedBars(Coalesced(s, threshold)) + Gaps(Coalesced(s, threshold)) == OccupiedBars(Prepare(s))
  {
    PrepareKeeps(s, lo, hi);
    PrepareGapless(s);
    assert QuietGapless(Prepare(s));
    CoalescedIsFold(s, threshold, lo, hi);
    FoldGaps(Prepare(s), threshold, lo, hi);
  }

  // ---- The name of a bar --------------------------------------------------------------------------

  /** A bar has a name exactly while its GPU is in use or disabled, so exactly these bars can be joined over
      a gap. */
  lemma NamedExactly(state: GpuState, attribution: string, taskName: string, process: string)
    ensures Family(state, attribution, taskName, process) != "" <==> state != Idle && state != Unknown
  {
    assert |Lower("")| == 0;
    assert Lower("") == "";
  }

  /** Jobs that were named explicitly keep their names. */
  lemma ExplicitNamesStay(state: GpuState, taskName: string, process: string)
    requires state != Idle && state != Unknown && taskName != ""
    ensures Family(state, "explicit", taskName, process) == taskName
  {
  }

  /** All Python interpreters, whatever their case or version, show one name unless a job was named. */
  lemma PythonsAreOne(state: GpuState, attribution: string, taskName: string, process: string)
    requires state != Idle && state != Unknown && attribution != "explicit"
    requires |process| >= 6 && Lower(process[..6]) == "python"
    ensures Family(state, attribution, taskName, process) == "Python 训练/计算进程"
  {
    assert Lower(process)[..6] == Lower(process[..6]);
  }

  /** Any other process with a meaningful name shows that name, as it is written. */
  lemma OtherNamesStay(state: GpuState, attribution: string, taskName: string, process: string)
    requires state != Idle && state != Unknown && attribution != "explicit" && process != ""
    requires |process| >= 6 ==> Lower(process[..6]) != "python"
    ensures Family(state, attribution, taskName, process)
            == if Lower(process) in ["no data", "n/a", "unknown"] then "外部 GPU 进程" else process
  {
    assert |Lower(process)| == |process|;
    assert |process| >= 6 ==> Lower(process)[..6] == Lower(process[..6]);
  }
}

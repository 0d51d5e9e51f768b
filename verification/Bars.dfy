/** Readable display bars for one GPU lane: neighbouring segments with the same display key are
    joined, and short idle or unknown runs between equal occupied keys are folded into one bar. */
module Bars {
  import opened Prelude
  import opened Tiling

  datatype GpuState = Training | ManagedOther | External | Reserved | Idle | Disabled | Unknown

  datatype Meta = Meta(state: GpuState, taskName: string, attribution: string, process: string,
                       pid: Option<int>, sampleId: int)

  type Segment = Span<Meta>

  datatype Bar = Bar(start: int, end: int, state: GpuState, taskName: string, attribution: string,
                     process: string, duration: int, observed: int, gap: int, gapCount: int,
                     sampleCount: int, firstSample: int, lastSample: int)

  datatype Key = Key(state: GpuState, family: string)

  // ---- Display identity -------------------------------------------------------------------

  const PYTHON_FAMILY := "Python 训练/计算进程"
  const EXTERNAL_FAMILY := "外部 GPU 进程"

  function LowerChar(c: char): char {
    if 'A' <= c <= 'Z' then ((c as int) + 32) as char else c
  }

  function Lower(s: string): string {
    seq(|s|, i requires 0 <= i < |s| => LowerChar(s[i]))
  }

  predicate StartsWithPython(s: string) {
    |s| >= 6 && s[..6] == "python"
  }

  predicate Quiet(state: GpuState) {
    state == Idle || state == Unknown
  }

  function Family(state: GpuState, attribution: string, taskName: string, process: string): string {
    if Quiet(state) then ""
    else if attribution == "explicit" && taskName != "" then taskName
    else
      var name := if process != "" then process else taskName;
      var inferred := Lower(name);
      if StartsWithPython(inferred) then PYTHON_FAMILY
      else if inferred in ["", "no data", "n/a", "unknown"] then EXTERNAL_FAMILY
      else name
  }

  /** Feeding a family back in as the task name changes nothing. */
  lemma FamilyIdempotent(state: GpuState, attribution: string, taskName: string, process: string)
    ensures var f := Family(state, attribution, taskName, process);
            Family(state, attribution, f, process) == f
  {
    assert Lower(PYTHON_FAMILY)[..6] == "python";
    assert Lower(EXTERNAL_FAMILY)[0] == EXTERNAL_FAMILY[0];
    assert Lower(EXTERNAL_FAMILY)[0] !in ['p', 'n', 'u'];
    assert |Lower("")| == 0;
  }

  function MetaKey(m: Meta): Key {
    Key(m.state, Family(m.state, m.attribution, m.taskName, m.process))
  }

  function SegmentKey(s: Segment): Key {
    MetaKey(s.meta)
  }

  function BarKey(b: Bar): Key {
    Key(b.state, Family(b.state, b.attribution, b.taskName, b.process))
  }

  predicate Occupied(b: Bar) {
    !Quiet(b.state) && BarKey(b).family != ""
  }

  // ---- Operations -------------------------------------------------------------------------

  function Fresh(s: Segment): Bar {
    Bar(s.start, s.end, s.meta.state, SegmentKey(s).family, s.meta.attribution, s.meta.process,
        s.end - s.start, s.end - s.start, 0, 0, 1, s.meta.sampleId, s.meta.sampleId)
  }

  /** Extend `left` over `right`, counting `gap` ticks between them as unobserved. */
  function MergePair(left: Bar, right: Bar, gap: int): Bar {
    left.(end := right.end,
          duration := right.end - left.start,
          observed := left.observed + right.observed,
          gap := left.gap + gap + right.gap,
          gapCount := left.gapCount + (if gap > 0 then 1 else 0) + right.gapCount,
          sampleCount := left.sampleCount + right.sampleCount,
          lastSample := right.lastSample)
  }

  /** Add one raw segment to the bars prepared so far. */
  function Absorb(prepared: seq<Bar>, s: Segment): seq<Bar> {
    var item := Fresh(s);
    if prepared != [] && prepared[|prepared| - 1].end == item.start && BarKey(prepared[|prepared| - 1]) == BarKey(item)
    then prepared[..|prepared| - 1] + [MergePair(prepared[|prepared| - 1], item, 0)]
    else prepared + [item]
  }

  function Prepare(s: seq<Segment>): seq<Bar> {
    if s == [] then [] else Absorb(Prepare(s[..|s| - 1]), s[|s| - 1])
  }

  function QuietRun(p: seq<Bar>): (n: nat)
    ensures n <= |p|
    ensures forall i :: 0 <= i < n ==> Quiet(p[i].state)
    ensures n < |p| ==> !Quiet(p[n].state)
  {
    if p == [] || !Quiet(p[0].state) then 0 else 1 + QuietRun(p[1..])
  }

  function Total(p: seq<Bar>): int {
    if p == [] then 0 else p[0].duration + Total(p[1..])
  }

  /** The bar at the head can be joined with the one after the quiet run that follows it. */
  predicate Foldable(p: seq<Bar>, threshold: int) {
    && p != [] && Occupied(p[0])
    && var n := QuietRun(p[1..]);
       && 0 < n && n + 1 < |p|
       && Total(p[1..n + 1]) <= threshold
       && BarKey(p[0]) == BarKey(p[n + 1])
  }

  function Joined(p: seq<Bar>, threshold: int): seq<Bar>
    requires Foldable(p, threshold)
  {
    var n := QuietRun(p[1..]);
    [MergePair(p[0], p[n + 1], Total(p[1..n + 1]))] + p[n + 2..]
  }

  function Fold(p: seq<Bar>, threshold: int): seq<Bar>
    decreases |p|
  {
    if p == [] then []
    else if Foldable(p, threshold) then Fold(Joined(p, threshold), threshold)
    else [p[0]] + Fold(p[1..], threshold)
  }

  function Coalesced(s: seq<Segment>, threshold: int): seq<Bar> {
    if threshold <= 0 then Prepare(s) else Fold(Prepare(s), threshold)
  }

  /** Join contiguous segments with equal display keys. */
  method PrepareBars(segments: seq<Segment>) returns (prepared: seq<Bar>)
    ensures prepared == Prepare(segments)
  {
    prepared := [];
    for i := 0 to |segments|
      invariant prepared == Prepare(segments[..i])
    {
      assert segments[..i + 1][..i] == segments[..i];
      var item := Fresh(segments[i]);
      if prepared != [] && prepared[|prepared| - 1].end == item.start
         && BarKey(prepared[|prepared| - 1]) == BarKey(item) {
        prepared := prepared[|prepared| - 1 := MergePair(prepared[|prepared| - 1], item, 0)];
      } else {
        prepared := prepared + [item];
      }
    }
    assert segments[..|segments|] == segments;
  }

  /** The idle or unknown run behind a bar, and how long it lasts. */
  method ScanQuiet(prepared: seq<Bar>, index: nat) returns (gapEnd: nat, gapTotal: int)
    requires index < |prepared|
    ensures gapEnd == index + 1 + QuietRun(prepared[index + 1..])
    ensures gapTotal == Total(prepared[index + 1..gapEnd])
  {
    gapEnd, gapTotal := index + 1, 0;
    while gapEnd < |prepared| && Quiet(prepared[gapEnd].state)
      invariant index + 1 <= gapEnd <= |prepared|
      invariant gapTotal == Total(prepared[index + 1..gapEnd])
      invariant forall k :: index < k < gapEnd ==> Quiet(prepared[k].state)
    {
      assert prepared[index + 1..gapEnd + 1] == prepared[index + 1..gapEnd] + [prepared[gapEnd]];
      TotalConcat(prepared[index + 1..gapEnd], [prepared[gapEnd]]);
      gapTotal := gapTotal + prepared[gapEnd].duration;
      gapEnd := gapEnd + 1;
    }
  }

  /** Fold short quiet runs, rewriting the prepared bars in place as the scan moves right. */
  method FoldBars(bars: seq<Bar>, mergeGap: int) returns (result: seq<Bar>)
    ensures result == Fold(bars, mergeGap)
  {
    var prepared := bars;
    var index := 0;
    result := [];
    assert prepared[0..] == prepared;
    while index < |prepared|
      invariant 0 <= index <= |prepared|
      invariant result + Fold(prepared[index..], mergeGap) == Fold(bars, mergeGap)
      decreases |prepared| - index
    {
      var current := prepared[index];
      JoinsAtIndex(prepared, index, mergeGap);
      if Occupied(current) {
        var gapEnd, gapTotal := ScanQuiet(prepared, index);
        if gapEnd > index + 1 && gapEnd < |prepared| && gapTotal <= mergeGap
           && BarKey(current) == BarKey(prepared[gapEnd]) {
          JoinStep(prepared, index, mergeGap, gapEnd);
          current := MergePair(current, prepared[gapEnd], gapTotal);
          prepared := prepared[gapEnd := current];
          index := gapEnd;
          continue;
        }
      }
      result := result + [current];
      index := index + 1;
    }
  }

  lemma JoinsAtIndex(p: seq<Bar>, i: nat, threshold: int)
    requires i < |p|
    ensures var j := i + 1 + QuietRun(p[i + 1..]);
            Foldable(p[i..], threshold)
            <==> Occupied(p[i]) && j > i + 1 && j < |p| && Total(p[i + 1..j]) <= threshold
                 && BarKey(p[i]) == BarKey(p[j])
  {
    var n := QuietRun(p[i + 1..]);
    assert p[i..][1..] == p[i + 1..];
    assert p[i..][1..n + 1] == p[i + 1..i + 1 + n];
  }

  lemma JoinedInPlace(p: seq<Bar>, i: nat, threshold: int, j: nat)
    requires i < |p| && Foldable(p[i..], threshold) && j == i + 1 + QuietRun(p[i + 1..])
    ensures j < |p|
    ensures Joined(p[i..], threshold) == p[j := MergePair(p[i], p[j], Total(p[i + 1..j]))][j..]
  {
    var n := j - i - 1;
    assert p[i..][1..] == p[i + 1..];
    assert p[i..][1..n + 1] == p[i + 1..j];
    assert p[i..][n + 2..] == p[j + 1..];
  }

  lemma JoinStep(p: seq<Bar>, i: nat, threshold: int, j: nat)
    requires i < |p| && Foldable(p[i..], threshold) && j == i + 1 + QuietRun(p[i + 1..])
    ensures j < |p|
    ensures Fold(p[i..], threshold) == Fold(p[j := MergePair(p[i], p[j], Total(p[i + 1..j]))][j..], threshold)
  {
    JoinedInPlace(p, i, threshold, j);
  }

  /** Build readable display bars. */
  method CoalesceGpuSegments(segments: seq<Segment>, mergeGap: int) returns (result: seq<Bar>)
    ensures result == Coalesced(segments, mergeGap)
  {
    var prepared := PrepareBars(segments);
    if mergeGap <= 0 {
      return prepared;
    }
    result := FoldBars(prepared, mergeGap);
  }

  lemma {:induction false} TotalConcat(a: seq<Bar>, b: seq<Bar>)
    ensures Total(a + b) == Total(a) + Total(b)
  {
    if a == [] {
      assert a + b == b;
    } else {
      TotalConcat(a[1..], b);
      assert (a + b)[1..] == a[1..] + b;
    }
  }
}

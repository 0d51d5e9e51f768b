/** Half-open segments on a lane: clipping to the report window, appending with extension of an
    equal neighbour, and the shape of a lane without holes. */
module Tiling {
  import opened Prelude
  import opened Intervals

  datatype Span<M> = Span(start: int, end: int, meta: M)

  /** The segment contains tick `t`. */
  ghost predicate At<M>(v: Span<M>, t: int) {
    v.start <= t < v.end
  }

  function Clip(start: int, end: int, windowStart: int, windowEnd: int): Option<Interval> {
    var left, right := Max(start, windowStart), Min(end, windowEnd);
    if right <= left then None else Some(Interval(left, right))
  }

  /** How far a lane that begins at `lo` is tiled once everything before tick `t` has been appended. */
  function Reach(lo: int, end: int, t: int): int {
    Max(lo, Min(end, t))
  }

  /** Add a segment, extending the last one when it touches and carries the same metadata. */
  function Appended<M(==)>(s: seq<Span<M>>, start: int, end: int, meta: M): seq<Span<M>> {
    if end <= start then s
    else if s != [] && s[|s| - 1].end == start && s[|s| - 1].meta == meta
    then s[..|s| - 1] + [s[|s| - 1].(end := end)]
    else s + [Span(start, end, meta)]
  }

  /** Non-empty segments that follow each other without a hole from `lo` to `hi`. */
  ghost predicate RawLane<M>(s: seq<Span<M>>, lo: int, hi: int) {
    if s == [] then lo == hi
    else
      var last := s[|s| - 1];
      last.start < last.end == hi && RawLane(s[..|s| - 1], lo, last.start)
  }

  /** Each segment of `r` is the new stretch, or shows what `s` showed at its ticks, or both. */
  ghost predicate Carries<M>(r: seq<Span<M>>, s: seq<Span<M>>, start: int, end: int, meta: M) {
    forall i, t :: 0 <= i < |r| && At(r[i], t) ==>
      || (start <= t < end && r[i].meta == meta)
      || (i < |s| && At(s[i], t) && r[i].meta == s[i].meta)
  }

  lemma {:induction false} AppendedLane<M>(s: seq<Span<M>>, lo: int, start: int, end: int, meta: M)
    requires RawLane(s, lo, start) && start < end
    ensures RawLane(Appended(s, start, end, meta), lo, end)
  {
    if s != [] && s[|s| - 1].meta == meta {
      assert Appended(s, start, end, meta)[..|s| - 1] == s[..|s| - 1];
    } else {
      assert Appended(s, start, end, meta)[..|s|] == s;
    }
  }

  lemma {:induction false} AppendedCarries<M>(s: seq<Span<M>>, start: int, end: int, meta: M)
    requires start < end
    ensures Carries(Appended(s, start, end, meta), s, start, end, meta)
  {
  }

  lemma {:induction false} RawLaneSpan<M>(s: seq<Span<M>>, lo: int, hi: int)
    requires RawLane(s, lo, hi)
    ensures lo <= hi && (lo == hi <==> s == [])
  {
    if s != [] {
      RawLaneSpan(s[..|s| - 1], lo, s[|s| - 1].start);
    }
  }

  lemma {:induction false} SegmentsInside<M>(s: seq<Span<M>>, lo: int, hi: int)
    requires RawLane(s, lo, hi)
    ensures forall v :: v in s ==> lo <= v.start < v.end <= hi
  {
    if s != [] {
      SegmentsInside(s[..|s| - 1], lo, s[|s| - 1].start);
      RawLaneSpan(s[..|s| - 1], lo, s[|s| - 1].start);
      assert s == s[..|s| - 1] + [s[|s| - 1]];
    }
  }

  /** In a lane without holes every tick belongs to exactly one segment. */
  lemma {:induction false} LaneHasTick<M>(s: seq<Span<M>>, lo: int, hi: int, t: int)
    requires RawLane(s, lo, hi)
    ensures lo <= hi
    ensures lo <= t < hi <==> exists i :: 0 <= i < |s| && At(s[i], t)
    ensures forall i, j :: 0 <= i < |s| && 0 <= j < |s| && At(s[i], t) && At(s[j], t) ==> i == j
  {
    if s != [] {
      var init, last := s[..|s| - 1], s[|s| - 1];
      LaneHasTick(init, lo, last.start, t);
      assert forall i :: 0 <= i < |init| ==> init[i] == s[i];
      if lo <= t < last.start {
        var i :| 0 <= i < |init| && At(init[i], t);
        assert At(s[i], t);
      } else if last.start <= t < hi {
        assert At(s[|s| - 1], t);
      }
    }
  }
}

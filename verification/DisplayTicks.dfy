/** What display bars show, tick by tick, in terms of the raw segments alone. */
module DisplayTicks {
  import opened Prelude
  import opened Tiling
  import opened Bars
  import opened BarTheorems

  // ---- Raw segments ---------------------------------------------------------------------------

  /** The raw segment at tick `t` has the key `key`. */
  ghost predicate RawKey(s: seq<Segment>, t: int, key: Key) {
    exists i :: 0 <= i < |s| && At(s[i], t) && SegmentKey(s[i]) == key
  }

  ghost predicate RawQuiet(s: seq<Segment>, t: int) {
    exists key :: RawKey(s, t, key) && Quiet(key.state)
  }

  /** From `x` up to `y` the lane is quiet for at most `threshold` ticks, and just before and just after it
      has the same occupied key. */
  ghost predicate RawGap(s: seq<Segment>, threshold: int, x: int, y: int, key: Key) {
    && x < y <= x + threshold && !Quiet(key.state)
    && RawKey(s, x - 1, key) && RawKey(s, y, key)
    && forall u :: x <= u < y ==> RawQuiet(s, u)
  }

  ghost predicate InRawGap(s: seq<Segment>, threshold: int, t: int, key: Key) {
    exists x, y :: RawGap(s, threshold, x, y, key) && x <= t < y
  }

  /** What a reader should see at tick `t`: the key around a short quiet gap, otherwise the raw key. */
  ghost predicate RawDisplayed(s: seq<Segment>, threshold: int, t: int, key: Key) {
    InRawGap(s, threshold, t, key) || (RawKey(s, t, key) && forall k :: !InRawGap(s, threshold, t, k))
  }

  lemma RawKeySnoc(s: seq<Segment>, t: int, key: Key)
    requires s != []
    ensures var last := s[|s| - 1];
            RawKey(s, t, key) <==> RawKey(s[..|s| - 1], t, key) || (At(last, t) && SegmentKey(last) == key)
  {
    var init := s[..|s| - 1];
    if RawKey(s, t, key) {
      var i :| 0 <= i < |s| && At(s[i], t) && SegmentKey(s[i]) == key;
      assert i < |init| ==> At(init[i], t) && SegmentKey(init[i]) == key;
    }
    if RawKey(init, t, key) {
      var i :| 0 <= i < |init| && At(init[i], t) && SegmentKey(init[i]) == key;
      assert At(s[i], t) && SegmentKey(s[i]) == key;
    }
    assert At(s[|s| - 1], t) ==> RawKey(s, t, SegmentKey(s[|s| - 1]));
  }

  lemma ShowsSnoc(p: seq<Bar>, b: Bar, t: int, key: Key)
    ensures Shows(p + [b], t, key) <==> Shows(p, t, key) || (b.start <= t < b.end && BarKey(b) == key)
  {
    var all := p + [b];
    if Shows(p, t, key) {
      var i :| 0 <= i < |p| && p[i].start <= t < p[i].end && BarKey(p[i]) == key;
      assert all[i] == p[i];
    }
    assert all[|p|] == b;
    if Shows(all, t, key) {
      var i :| 0 <= i < |all| && all[i].start <= t < all[i].end && BarKey(all[i]) == key;
      assert i < |p| ==> all[i] == p[i];
    }
  }

  /** Adding a segment shows its key at its ticks. */
  lemma AbsorbShows(p: seq<Bar>, s: Segment, lo: int, t: int, key: Key)
    requires Prepared(p, lo, s.start) && s.start < s.end
    ensures Shows(Absorb(p, s), t, key) <==> Shows(p, t, key) || (At(s, t) && SegmentKey(s) == key)
  {
    FreshFacts(s);
    ShowsSnoc(p, Fresh(s), t, key);
    if p != [] {
      var init, last := p[..|p| - 1], p[|p| - 1];
      assert p == init + [last] && last in p;
      LaneInit(p, lo, s.start);
      ShowsSnoc(init, last, t, key);
      ShowsSnoc(init, MergePair(last, Fresh(s), 0), t, key);
      assert BarKey(MergePair(last, Fresh(s), 0)) == BarKey(last);
    }
  }

  /** The first pass shows every tick's raw key. */
  lemma {:induction false} PrepareShows(s: seq<Segment>, lo: int, hi: int, t: int, key: Key)
    requires RawLane(s, lo, hi)
    ensures Shows(Prepare(s), t, key) <==> RawKey(s, t, key)
  {
    if s != [] {
      var init, last := s[..|s| - 1], s[|s| - 1];
      PrepareKeeps(init, lo, last.start);
      PrepareShows(init, lo, last.start, t, key);
      AbsorbShows(Prepare(init), last, lo, t, key);
      RawKeySnoc(s, t, key);
    }
  }

  // ---- Gaps of bars and gaps of ticks -----------------------------------------------------------

  lemma {:induction false} LaneTick(p: seq<Bar>, lo: int, hi: int, t: int) returns (i: nat)
    requires Lane(p, lo, hi) && lo <= t < hi
    ensures i < |p| && p[i].start <= t < p[i].end
  {
    if t < p[0].end {
      i := 0;
    } else {
      var k := LaneTick(p[1..], p[0].end, hi, t);
      i := k + 1;
    }
  }

  /** Bars that share a tick are the same bar. */
  lemma SameBar(p: seq<Bar>, lo: int, hi: int, i: nat, j: nat, t: int)
    requires Lane(p, lo, hi) && i < |p| && j < |p|
    requires p[i].start <= t < p[i].end && p[j].start <= t < p[j].end
    ensures i == j
  {
    LaneOrder(p, lo, hi);
  }

  ghost predicate QuietAt(p: seq<Bar>, t: int) {
    exists key :: Shows(p, t, key) && Quiet(key.state)
  }

  ghost predicate Gap(p: seq<Bar>, threshold: int, x: int, y: int, key: Key) {
    && x < y <= x + threshold && !Quiet(key.state)
    && Shows(p, x - 1, key) && Shows(p, y, key)
    && forall u :: x <= u < y ==> QuietAt(p, u)
  }

  lemma ShownBar(p: seq<Bar>, lo: int, hi: int, i: nat, t: int, key: Key)
    requires Lane(p, lo, hi) && i < |p| && p[i].start <= t < p[i].end
    ensures Shows(p, t, key) <==> BarKey(p[i]) == key
  {
    if Shows(p, t, key) {
      var j :| 0 <= j < |p| && p[j].start <= t < p[j].end && BarKey(p[j]) == key;
      SameBar(p, lo, hi, i, j, t);
    }
  }

  /** A quiet run between two bars is a gap of ticks. */
  lemma BridgeIsGap(p: seq<Bar>, threshold: int, lo: int, hi: int, a: int, b: int)
    requires Lane(p, lo, hi) && Bridged(p, threshold, a, b)
    ensures Gap(p, threshold, p[a].end, p[b].start, BarKey(p[a]))
  {
    LaneOrder(p, lo, hi);
    var x, y := p[a].end, p[b].start;
    assert x <= p[a + 1].start < p[a + 1].end <= y;
    assert p[a] in p && p[b] in p;
    forall u | x <= u < y ensures QuietAt(p, u) {
      var i := LaneTick(p, lo, hi, u);
      assert a < i < b;
      assert Shows(p, u, BarKey(p[i]));
    }
  }

  lemma KeyIsOccupied(b: Bar)
    requires !Quiet(b.state)
    ensures Occupied(b)
  {
    assert Lower("") == "";
  }

  lemma QuietBar(p: seq<Bar>, lo: int, hi: int, i: nat, t: int)
    requires Lane(p, lo, hi) && i < |p| && p[i].start <= t < p[i].end && QuietAt(p, t)
    ensures Quiet(p[i].state)
  {
    var key :| Shows(p, t, key) && Quiet(key.state);
    ShownBar(p, lo, hi, i, t, key);
  }

  lemma GapEdges(p: seq<Bar>, threshold: int, lo: int, hi: int, x: int, y: int, key: Key, a: nat, b: nat)
    requires Lane(p, lo, hi) && Gap(p, threshold, x, y, key) && a < |p| && b < |p|
    requires p[a].start <= x - 1 < p[a].end && BarKey(p[a]) == key
    requires p[b].start <= y < p[b].end && BarKey(p[b]) == key
    ensures p[a].end == x && p[b].start == y
  {
    assert QuietAt(p, x) && QuietAt(p, y - 1);
    if p[a].end > x {
      QuietBar(p, lo, hi, a, x);
    }
    if p[b].start < y {
      QuietBar(p, lo, hi, b, y - 1);
    }
  }

  lemma GapInside(p: seq<Bar>, threshold: int, lo: int, hi: int, x: int, y: int, key: Key, a: nat, b: nat)
    requires Lane(p, lo, hi) && Gap(p, threshold, x, y, key) && a < |p| && b < |p|
    requires p[a].end == x && p[b].start == y
    ensures a + 1 < b && forall i :: a < i < b ==> Quiet(p[i].state)
  {
    LaneOrder(p, lo, hi);
    assert p[a] in p && p[b] in p;
    var m := LaneTick(p, lo, hi, x);
    assert a < m < b;
    forall i | a < i < b ensures Quiet(p[i].state) {
      assert p[i] in p && x <= p[i].start < y;
      assert QuietAt(p, p[i].start);
      QuietBar(p, lo, hi, i, p[i].start);
    }
  }

  /** A gap of ticks lies exactly between two bars. */
  lemma GapIsBridge(p: seq<Bar>, threshold: int, lo: int, hi: int, x: int, y: int, key: Key) returns (a: int, b: int)
    requires Lane(p, lo, hi) && Gap(p, threshold, x, y, key)
    ensures Bridged(p, threshold, a, b) && p[a].end == x && p[b].start == y && BarKey(p[a]) == key
  {
    a :| 0 <= a < |p| && p[a].start <= x - 1 < p[a].end && BarKey(p[a]) == key;
    b :| 0 <= b < |p| && p[b].start <= y < p[b].end && BarKey(p[b]) == key;
    GapEdges(p, threshold, lo, hi, x, y, key, a, b);
    GapInside(p, threshold, lo, hi, x, y, key, a, b);
    KeyIsOccupied(p[a]);
  }

  lemma BridgesTickByTicks(p: seq<Bar>, threshold: int, lo: int, hi: int, t: int, key: Key)
    requires Lane(p, lo, hi)
    ensures BridgesTick(p, threshold, t, key) <==> exists x, y :: Gap(p, threshold, x, y, key) && x <= t < y
  {
    if BridgesTick(p, threshold, t, key) {
      var a, b :| Bridged(p, threshold, a, b) && p[a].end <= t < p[b].start && BarKey(p[a]) == key;
      BridgeIsGap(p, threshold, lo, hi, a, b);
    }
    if x, y :| Gap(p, threshold, x, y, key) && x <= t < y {
      var a, b := GapIsBridge(p, threshold, lo, hi, x, y, key);
    }
  }

  lemma GapsAgree(s: seq<Segment>, p: seq<Bar>, threshold: int, x: int, y: int, key: Key)
    requires forall t, k :: Shows(p, t, k) <==> RawKey(s, t, k)
    ensures Gap(p, threshold, x, y, key) <==> RawGap(s, threshold, x, y, key)
  {
    forall u ensures QuietAt(p, u) <==> RawQuiet(s, u) {
      if QuietAt(p, u) {
        var k :| Shows(p, u, k) && Quiet(k.state);
        assert RawKey(s, u, k);
      }
      if RawQuiet(s, u) {
        var k :| RawKey(s, u, k) && Quiet(k.state);
        assert Shows(p, u, k);
      }
    }
  }

  lemma DisplayedByTicks(s: seq<Segment>, p: seq<Bar>, threshold: int, lo: int, hi: int, t: int, key: Key)
    requires Lane(p, lo, hi) && forall u, k :: Shows(p, u, k) <==> RawKey(s, u, k)
    ensures Displayed(p, threshold, t, key) <==> RawDisplayed(s, threshold, t, key)
  {
    forall k ensures BridgesTick(p, threshold, t, k) <==> InRawGap(s, threshold, t, k) {
      BridgesTickByTicks(p, threshold, lo, hi, t, k);
      forall x, y ensures Gap(p, threshold, x, y, k) <==> RawGap(s, threshold, x, y, k) {
        GapsAgree(s, p, threshold, x, y, k);
      }
    }
  }

  // ---- Main result ------------------------------------------------------------------------------

  /** At every tick of the lane the display shows exactly the key a reader should see there: the key around
      a short quiet gap of the raw lane, and everywhere else the raw segment's own. */
  lemma DisplayShowsRaw(s: seq<Segment>, threshold: int, lo: int, hi: int, t: int, key: Key)
    requires RawLane(s, lo, hi) && lo <= t < hi
    ensures Shows(Coalesced(s, threshold), t, key) <==> RawDisplayed(s, threshold, t, key)
  {
    PrepareKeeps(s, lo, hi);
    CoalescingNormalForm(s, threshold, lo, hi, t, key);
    forall u, k ensures Shows(Prepare(s), u, k) <==> RawKey(s, u, k) {
      PrepareShows(s, lo, hi, u, k);
    }
    DisplayedByTicks(s, Prepare(s), threshold, lo, hi, t, key);
  }

  // ---- A lane whose sample counts shrink ------------------------------------------------------------

  function Observed(start: int, end: int, state: GpuState, sample: int): Segment {
    Span(start, end, Meta(state, "job", "explicit", "", None, sample))
  }

  const WITH_GAP := [Observed(0, 10, Training, 1), Observed(10, 12, Idle, 2), Observed(12, 20, Training, 3)]

  /** Three samples, the middle one idle for less than the tolerance: the display counts fewer than three. */
  lemma FoldedSampleIsNotCounted()
    ensures RawLane(WITH_GAP, 0, 20) && Samples(Coalesced(WITH_GAP, 5)) < |WITH_GAP|
  {
    assert RawLane(WITH_GAP[..0], 0, 0) && RawLane(WITH_GAP[..1], 0, 10) && RawLane(WITH_GAP[..2], 0, 12) by {
      assert WITH_GAP[..2][..1] == WITH_GAP[..1] && WITH_GAP[..1][..0] == [];
    }
    SampleCountsKeptExactly(WITH_GAP, 5, 0, 20);
    GapIsThere();
  }

  lemma GapIsThere()
    requires RawLane(WITH_GAP, 0, 20)
    ensures !NoBridge(Prepare(WITH_GAP), 5)
  {
    var key := Key(Training, "job");
    var p := Prepare(WITH_GAP);
    PrepareKeeps(WITH_GAP, 0, 20);
    assert At(WITH_GAP[0], 9) && At(WITH_GAP[2], 12);
    assert RawKey(WITH_GAP, 9, key) && RawKey(WITH_GAP, 12, key);
    forall u | 10 <= u < 12 ensures RawQuiet(WITH_GAP, u) {
      assert At(WITH_GAP[1], u);
      assert RawKey(WITH_GAP, u, Key(Idle, ""));
    }
    assert RawGap(WITH_GAP, 5, 10, 12, key);
    forall u, k ensures Shows(p, u, k) <==> RawKey(WITH_GAP, u, k) {
      PrepareShows(WITH_GAP, 0, 20, u, k);
    }
    GapsAgree(WITH_GAP, p, 5, 10, 12, key);
    var a, b := GapIsBridge(p, 5, 0, 20, 10, 12, key);
  }
}

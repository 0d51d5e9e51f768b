/** What display coalescing keeps: the span of the lane, the time in it, which key is shown at
    every tick, and a normal form that a second run leaves alone. */
module BarTheorems {
  import opened Prelude
  import opened Bars
  import opened Tiling

  /** Non-empty bars that follow each other without a hole from `lo` to `hi`. */
  ghost predicate Lane(p: seq<Bar>, lo: int, hi: int) {
    if p == [] then lo == hi
    else p[0].start == lo && lo < p[0].end && Lane(p[1..], p[0].end, hi)
  }

  /** A bar's length splits into observed and bridged time, and its task name is its family. */
  ghost predicate Balanced(b: Bar) {
    && b.duration == b.end - b.start == b.observed + b.gap
    && 0 < b.observed && 0 <= b.gap
    && b.taskName == BarKey(b).family
  }

  ghost predicate AllBalanced(p: seq<Bar>) {
    forall b :: b in p ==> Balanced(b)
  }

  /** Neighbours show different keys. */
  ghost predicate NoTwins(p: seq<Bar>) {
    forall i :: 0 < i < |p| ==> BarKey(p[i - 1]) != BarKey(p[i])
  }

  ghost function ObservedFor(p: seq<Bar>, key: Key): int {
    if p == [] then 0 else (if BarKey(p[0]) == key then p[0].observed else 0) + ObservedFor(p[1..], key)
  }

  ghost function RawFor(s: seq<Segment>, key: Key): int {
    if s == [] then 0
    else
      var last := s[|s| - 1];
      (if SegmentKey(last) == key then last.end - last.start else 0) + RawFor(s[..|s| - 1], key)
  }

  ghost function Accounted(p: seq<Bar>): int {
    if p == [] then 0 else p[0].observed + p[0].gap + Accounted(p[1..])
  }

  // ---- Lanes ------------------------------------------------------------------------------

  lemma {:induction false} LaneOrder(p: seq<Bar>, lo: int, hi: int)
    requires Lane(p, lo, hi)
    ensures lo <= hi
    ensures forall b :: b in p ==> lo <= b.start < b.end <= hi
    ensures forall i, j :: 0 <= i < j < |p| ==> p[i].end <= p[j].start
  {
    if p != [] {
      LaneOrder(p[1..], p[0].end, hi);
      assert p == [p[0]] + p[1..];
      forall i, j | 0 <= i < j < |p| ensures p[i].end <= p[j].start {
        assert p[j] == p[1..][j - 1];
        if i == 0 {
          assert p[1..][j - 1] in p[1..];
        } else {
          assert p[i] == p[1..][i - 1];
        }
      }
    }
  }

  lemma {:induction false} LaneConcat(a: seq<Bar>, b: seq<Bar>, lo: int, mid: int, hi: int)
    requires Lane(a, lo, mid) && Lane(b, mid, hi)
    ensures Lane(a + b, lo, hi)
  {
    if a == [] {
      assert a + b == b;
    } else {
      LaneConcat(a[1..], b, a[0].end, mid, hi);
      assert (a + b)[1..] == a[1..] + b;
    }
  }

  lemma {:induction false} LaneSplit(p: seq<Bar>, n: nat, lo: int, hi: int)
    requires Lane(p, lo, hi) && n < |p|
    ensures Lane(p[..n], lo, p[n].start) && Lane(p[n..], p[n].start, hi)
  {
    if n == 0 {
      assert p[0..] == p;
    } else {
      LaneSplit(p[1..], n - 1, p[0].end, hi);
      assert p[..n][1..] == p[1..][..n - 1] && p[1..][n - 1..] == p[n..];
    }
  }

  lemma {:induction false} LaneTotal(p: seq<Bar>, lo: int, hi: int)
    requires Lane(p, lo, hi) && AllBalanced(p)
    ensures Total(p) == hi - lo == Accounted(p)
  {
    if p != [] {
      assert p[0] in p;
      assert forall b :: b in p[1..] ==> b in p;
      LaneTotal(p[1..], p[0].end, hi);
    }
  }

  lemma {:induction false} ObservedConcat(a: seq<Bar>, b: seq<Bar>, key: Key)
    ensures ObservedFor(a + b, key) == ObservedFor(a, key) + ObservedFor(b, key)
  {
    if a == [] {
      assert a + b == b;
    } else {
      ObservedConcat(a[1..], b, key);
      assert (a + b)[1..] == a[1..] + b;
    }
  }

  // ---- Joining contiguous segments ----------------------------------------------------------

  lemma FreshFacts(s: Segment)
    requires s.start < s.end
    ensures Balanced(Fresh(s)) && BarKey(Fresh(s)) == SegmentKey(s)
  {
    FamilyIdempotent(s.meta.state, s.meta.attribution, s.meta.taskName, s.meta.process);
  }

  ghost predicate Prepared(p: seq<Bar>, lo: int, hi: int) {
    Lane(p, lo, hi) && AllBalanced(p) && NoTwins(p)
  }

  lemma LaneSnoc(p: seq<Bar>, b: Bar, lo: int)
    requires Lane(p, lo, b.start) && b.start < b.end
    ensures Lane(p + [b], lo, b.end)
  {
    assert Lane([b], b.start, b.end);
    LaneConcat(p, [b], lo, b.start, b.end);
  }

  lemma LaneInit(p: seq<Bar>, lo: int, hi: int)
    requires Lane(p, lo, hi) && p != []
    ensures Lane(p[..|p| - 1], lo, p[|p| - 1].start) && p[|p| - 1].end == hi
  {
    LaneSplit(p, |p| - 1, lo, hi);
    assert p[|p| - 1..] == [p[|p| - 1]];
  }

  lemma AbsorbPrepared(p: seq<Bar>, s: Segment, lo: int)
    requires Prepared(p, lo, s.start) && s.start < s.end
    ensures Prepared(Absorb(p, s), lo, s.end)
  {
    FreshFacts(s);
    var item := Fresh(s);
    if p != [] && BarKey(p[|p| - 1]) == BarKey(item) {
      var last := p[|p| - 1];
      LaneInit(p, lo, s.start);
      assert last in p;
      LaneSnoc(p[..|p| - 1], MergePair(last, item, 0), lo);
    } else {
      LaneSnoc(p, item, lo);
    }
  }

  lemma ObservedSnoc(p: seq<Bar>, b: Bar, key: Key)
    ensures ObservedFor(p + [b], key) == ObservedFor(p, key) + if BarKey(b) == key then b.observed else 0
  {
    ObservedConcat(p, [b], key);
  }

  lemma AbsorbObserved(p: seq<Bar>, s: Segment, key: Key)
    requires s.start < s.end
    ensures ObservedFor(Absorb(p, s), key)
            == ObservedFor(p, key) + if SegmentKey(s) == key then s.end - s.start else 0
  {
    FreshFacts(s);
    var item := Fresh(s);
    ObservedSnoc(p, item, key);
    if p != [] {
      var last := p[|p| - 1];
      assert p == p[..|p| - 1] + [last];
      ObservedSnoc(p[..|p| - 1], last, key);
      ObservedSnoc(p[..|p| - 1], MergePair(last, item, 0), key);
    }
  }

  /** The first pass keeps the lane and, key by key, the observed time. */
  lemma {:induction false} PrepareKeeps(s: seq<Segment>, lo: int, hi: int)
    requires RawLane(s, lo, hi)
    ensures Prepared(Prepare(s), lo, hi)
    ensures forall key :: ObservedFor(Prepare(s), key) == RawFor(s, key)
  {
    if s != [] {
      var last := s[|s| - 1];
      PrepareKeeps(s[..|s| - 1], lo, last.start);
      AbsorbPrepared(Prepare(s[..|s| - 1]), last, lo);
      forall key ensures ObservedFor(Prepare(s), key) == RawFor(s, key) {
        AbsorbObserved(Prepare(s[..|s| - 1]), last, key);
      }
    }
  }

  // ---- Folding quiet runs -------------------------------------------------------------------

  /** Bars `a` and `b` show the same occupied key and everything between them is quiet and lasts at
      most `threshold` ticks. */
  ghost predicate Bridged(p: seq<Bar>, threshold: int, a: int, b: int) {
    && 0 <= a && a + 1 < b < |p|
    && Occupied(p[a]) && BarKey(p[a]) == BarKey(p[b])
    && (forall m :: a < m < b ==> Quiet(p[m].state))
    && p[b].start - p[a].end <= threshold
  }

  lemma RunLasts(p: seq<Bar>, n: nat, lo: int, hi: int)
    requires Lane(p, lo, hi) && AllBalanced(p) && n + 1 < |p|
    ensures Total(p[1..n + 1]) == p[n + 1].start - p[0].end
  {
    LaneSplit(p, n + 1, lo, hi);
    assert p[..n + 1][1..] == p[1..n + 1];
    assert forall b :: b in p[1..n + 1] ==> b in p;
    LaneTotal(p[1..n + 1], p[0].end, p[n + 1].start);
  }

  /** The scan's test at the head of a lane finds exactly the bridge that starts there. */
  lemma BridgeFromHead(p: seq<Bar>, threshold: int, lo: int, hi: int)
    requires p != [] && Lane(p, lo, hi) && AllBalanced(p)
    ensures Foldable(p, threshold) <==> Bridged(p, threshold, 0, 1 + QuietRun(p[1..]))
    ensures forall b :: Bridged(p, threshold, 0, b) ==> b == 1 + QuietRun(p[1..])
  {
    forall b | Bridged(p, threshold, 0, b) ensures b == 1 + QuietRun(p[1..]) {
    }
    var n := QuietRun(p[1..]);
    assert forall m :: 0 < m < n + 1 ==> p[m] == p[1..][m - 1];
    if n + 1 < |p| {
      RunLasts(p, n, lo, hi);
    }
  }

  /** `q` is `p` from bar `n` on, except that its first bar may start earlier. */
  ghost predicate Shifted(p: seq<Bar>, q: seq<Bar>, n: nat) {
    && n < |p| && |q| == |p| - n
    && (forall i :: 0 < i < |q| ==> q[i] == p[i + n])
    && BarKey(q[0]) == BarKey(p[n]) && q[0].end == p[n].end
  }

  /** Only keys, quietness, starts and ends matter, so bridges move along with their bars. */
  lemma BridgeShift(p: seq<Bar>, q: seq<Bar>, threshold: int, n: nat, a: int, b: int)
    requires Shifted(p, q, n) && 0 <= a
    ensures Bridged(q, threshold, a, b) <==> Bridged(p, threshold, a + n, b + n)
  {
    assert BarKey(q[0]).state == q[0].state && BarKey(p[n]).state == p[n].state;
    if Bridged(q, threshold, a, b) {
      forall m | a + n < m < b + n ensures Quiet(p[m].state) {
        assert q[m - n] == p[m];
      }
    }
    if Bridged(p, threshold, a + n, b + n) {
      forall m | a < m < b ensures Quiet(q[m].state) {
        assert q[m] == p[m + n];
      }
    }
  }

  /** The joined bar spans head, quiet run and partner, and counts exactly the run as bridged time. */
  lemma JoinPrepared(p: seq<Bar>, threshold: int, lo: int, hi: int)
    requires Prepared(p, lo, hi) && Foldable(p, threshold)
    ensures Prepared(Joined(p, threshold), lo, hi)
  {
    var n := QuietRun(p[1..]);
    var left, right := p[0], p[n + 1];
    var run := p[1..n + 1];
    LaneSplit(p, n + 1, lo, hi);
    assert p[..n + 1][1..] == run && p[n + 1..][1..] == p[n + 2..];
    assert left in p && right in p;
    assert forall b :: b in run ==> b in p;
    LaneTotal(run, left.end, right.start);
    LaneOrder(run, left.end, right.start);
    var m := MergePair(left, right, Total(run));
    var q := Joined(p, threshold);
    assert q[1..] == p[n + 2..];
    assert Balanced(m);
    forall b | b in q ensures Balanced(b) {
      assert b == m || b in p[n + 2..];
    }
    forall i | 0 < i < |q| ensures BarKey(q[i - 1]) != BarKey(q[i]) {
      assert q[i] == p[i + n + 1];
      assert i == 1 || q[i - 1] == p[i + n];
      assert BarKey(p[i + n]) != BarKey(p[i + n + 1]);
    }
  }

  lemma {:induction false} FoldHead(p: seq<Bar>, threshold: int)
    requires p != []
    ensures Fold(p, threshold) != [] && BarKey(Fold(p, threshold)[0]) == BarKey(p[0])
    decreases |p|
  {
    if Foldable(p, threshold) {
      FoldHead(Joined(p, threshold), threshold);
    }
  }

  /** Folding keeps the lane, the balance of every bar, and the difference of neighbours. */
  lemma {:induction false} FoldPrepared(p: seq<Bar>, threshold: int, lo: int, hi: int)
    requires Prepared(p, lo, hi)
    ensures Prepared(Fold(p, threshold), lo, hi)
    decreases |p|
  {
    if p == [] {
    } else if Foldable(p, threshold) {
      JoinPrepared(p, threshold, lo, hi);
      FoldPrepared(Joined(p, threshold), threshold, lo, hi);
    } else {
      FoldPrepared(p[1..], threshold, p[0].end, hi);
      if p[1..] != [] {
        FoldHead(p[1..], threshold);
      }
    }
  }

  /** Bridging quiet time does not change what was observed of any occupied key. */
  lemma {:induction false} FoldObserved(p: seq<Bar>, threshold: int, key: Key)
    requires !Quiet(key.state)
    ensures ObservedFor(Fold(p, threshold), key) == ObservedFor(p, key)
    decreases |p|
  {
    if p == [] {
    } else if Foldable(p, threshold) {
      FoldObserved(Joined(p, threshold), threshold, key);
      JoinedObserved(p, threshold, key);
    } else {
      FoldObserved(p[1..], threshold, key);
      assert Fold(p, threshold)[1..] == Fold(p[1..], threshold);
    }
  }

  lemma JoinedObserved(p: seq<Bar>, threshold: int, key: Key)
    requires !Quiet(key.state) && Foldable(p, threshold)
    ensures ObservedFor(Joined(p, threshold), key) == ObservedFor(p, key)
  {
    var n := QuietRun(p[1..]);
    assert Joined(p, threshold)[1..] == p[n + 2..];
    assert p[1..] == p[1..n + 1] + p[n + 1..];
    ObservedConcat(p[1..n + 1], p[n + 1..], key);
    QuietObservesNothing(p[1..n + 1], key);
    assert p[n + 1..][1..] == p[n + 2..];
  }

  lemma {:induction false} QuietObservesNothing(p: seq<Bar>, key: Key)
    requires !Quiet(key.state) && forall i :: 0 <= i < |p| ==> Quiet(p[i].state)
    ensures ObservedFor(p, key) == 0
  {
    if p != [] {
      QuietObservesNothing(p[1..], key);
    }
  }

  // ---- Which key is shown at a tick ---------------------------------------------------------

  ghost predicate Shows(p: seq<Bar>, t: int, key: Key) {
    exists i :: 0 <= i < |p| && p[i].start <= t < p[i].end && BarKey(p[i]) == key
  }

  /** Tick `t` lies in a short quiet run between two bars of the occupied key `key`. */
  ghost predicate BridgesTick(p: seq<Bar>, threshold: int, t: int, key: Key) {
    exists a, b :: Bridged(p, threshold, a, b) && p[a].end <= t < p[b].start && BarKey(p[a]) == key
  }

  /** What a reader should see at tick `t`: the bridging key inside a short quiet run, otherwise the
      key of the bar that is there. */
  ghost predicate Displayed(p: seq<Bar>, threshold: int, t: int, key: Key) {
    || BridgesTick(p, threshold, t, key)
    || (Shows(p, t, key) && forall k :: !BridgesTick(p, threshold, t, k))
  }

  lemma ShowsCons(b: Bar, p: seq<Bar>, t: int, key: Key)
    ensures Shows([b] + p, t, key) <==> (b.start <= t < b.end && BarKey(b) == key) || Shows(p, t, key)
  {
    var q := [b] + p;
    if Shows(p, t, key) {
      var i :| 0 <= i < |p| && p[i].start <= t < p[i].end && BarKey(p[i]) == key;
      assert q[i + 1] == p[i];
    }
    if b.start <= t < b.end && BarKey(b) == key {
      assert q[0] == b;
    }
    if Shows(q, t, key) {
      var i :| 0 <= i < |q| && q[i].start <= t < q[i].end && BarKey(q[i]) == key;
      if i > 0 {
        assert p[i - 1] == q[i];
      }
    }
  }

  lemma ShowsInside(p: seq<Bar>, t: int, key: Key, lo: int, hi: int)
    requires Lane(p, lo, hi) && Shows(p, t, key)
    ensures lo <= t < hi
  {
    LaneOrder(p, lo, hi);
  }

  lemma ShowsAfter(p: seq<Bar>, n: nat, t: int, key: Key, lo: int, hi: int)
    requires Lane(p, lo, hi) && n < |p| && p[n].end <= t
    ensures Shows(p, t, key) <==> Shows(p[n + 1..], t, key)
  {
    LaneOrder(p, lo, hi);
    if Shows(p, t, key) {
      var i :| 0 <= i < |p| && p[i].start <= t < p[i].end && BarKey(p[i]) == key;
      assert i > n;
      assert p[n + 1..][i - n - 1] == p[i];
    }
    if Shows(p[n + 1..], t, key) {
      var i :| 0 <= i < |p[n + 1..]| && p[n + 1..][i].start <= t < p[n + 1..][i].end && BarKey(p[n + 1..][i]) == key;
      assert p[i + n + 1] == p[n + 1..][i];
    }
  }

  /** Ticks of the head bar are in no bridge. */
  lemma NoBridgeOverHead(p: seq<Bar>, threshold: int, t: int, lo: int, hi: int)
    requires Lane(p, lo, hi) && p != [] && t < p[0].end
    ensures forall k :: !BridgesTick(p, threshold, t, k)
  {
    LaneOrder(p, lo, hi);
  }

  lemma BridgesTickBy(p: seq<Bar>, threshold: int, t: int, a: int, b: int)
    requires Bridged(p, threshold, a, b) && p[a].end <= t < p[b].start
    ensures BridgesTick(p, threshold, t, BarKey(p[a]))
  {
  }

  lemma BridgesTickDown(p: seq<Bar>, q: seq<Bar>, threshold: int, n: nat, t: int, a: int, b: int)
    requires Shifted(p, q, n) && n <= a && Bridged(p, threshold, a, b) && p[a].end <= t < p[b].start
    ensures BridgesTick(q, threshold, t, BarKey(p[a]))
  {
    BridgeShift(p, q, threshold, n, a - n, b - n);
    BridgesTickBy(q, threshold, t, a - n, b - n);
  }

  lemma BridgesTickUp(p: seq<Bar>, q: seq<Bar>, threshold: int, n: nat, t: int, a: int, b: int)
    requires Shifted(p, q, n) && Bridged(q, threshold, a, b) && q[a].end <= t < q[b].start
    ensures BridgesTick(p, threshold, t, BarKey(q[a]))
  {
    BridgeShift(p, q, threshold, n, a, b);
    BridgesTickBy(p, threshold, t, a + n, b + n);
  }

  /** If no bridge over `t` begins before bar `n`, dropping the bars before it keeps the bridges over `t`. */
  lemma BridgesShift(p: seq<Bar>, q: seq<Bar>, threshold: int, n: nat, t: int, key: Key)
    requires Shifted(p, q, n)
    requires forall a, b :: Bridged(p, threshold, a, b) && p[a].end <= t < p[b].start ==> n <= a
    ensures BridgesTick(p, threshold, t, key) <==> BridgesTick(q, threshold, t, key)
  {
    if BridgesTick(p, threshold, t, key) {
      var a, b :| Bridged(p, threshold, a, b) && p[a].end <= t < p[b].start && BarKey(p[a]) == key;
      BridgesTickDown(p, q, threshold, n, t, a, b);
    }
    if BridgesTick(q, threshold, t, key) {
      var a, b :| Bridged(q, threshold, a, b) && q[a].end <= t < q[b].start && BarKey(q[a]) == key;
      BridgesTickUp(p, q, threshold, n, t, a, b);
    }
  }

  /** Beyond an unjoined head, bridges are those of the tail. */
  lemma BridgesTail(p: seq<Bar>, threshold: int, t: int, key: Key, lo: int, hi: int)
    requires p != [] && Lane(p, lo, hi) && AllBalanced(p) && !Foldable(p, threshold)
    ensures BridgesTick(p, threshold, t, key) <==> BridgesTick(p[1..], threshold, t, key)
  {
    BridgeFromHead(p, threshold, lo, hi);
    if p[1..] == [] {
      assert !BridgesTick(p, threshold, t, key) && !BridgesTick(p[1..], threshold, t, key);
    } else {
      assert Shifted(p, p[1..], 1);
      BridgesShift(p, p[1..], threshold, 1, t, key);
    }
  }

  lemma DisplayedTail(p: seq<Bar>, threshold: int, t: int, key: Key, lo: int, hi: int)
    requires Lane(p, lo, hi) && AllBalanced(p) && p != [] && !Foldable(p, threshold) && p[0].end <= t
    ensures Displayed(p, threshold, t, key) <==> Displayed(p[1..], threshold, t, key)
  {
    ShowsAfter(p, 0, t, key, lo, hi);
    forall k ensures BridgesTick(p, threshold, t, k) <==> BridgesTick(p[1..], threshold, t, k) {
      BridgesTail(p, threshold, t, k, lo, hi);
    }
  }

  /** A bridge that contains ticks before the partner's end is the one from the head. */
  lemma BridgeInJoin(p: seq<Bar>, threshold: int, t: int, a: int, b: int, lo: int, hi: int)
    requires Lane(p, lo, hi) && AllBalanced(p) && Foldable(p, threshold)
    requires Bridged(p, threshold, a, b) && p[a].end <= t < p[b].start
    ensures var n := QuietRun(p[1..]);
            (a == 0 && b == n + 1) || (a >= n + 1 && p[n + 1].end <= t)
  {
    var n := QuietRun(p[1..]);
    LaneOrder(p, lo, hi);
    BridgeFromHead(p, threshold, lo, hi);
    assert forall i :: 0 < i <= n ==> Quiet(p[1..][i - 1].state) && p[i] == p[1..][i - 1];
  }

  /** Inside the joined bar the display is its key. */
  lemma DisplayedInJoin(p: seq<Bar>, threshold: int, t: int, key: Key, lo: int, hi: int)
    requires Lane(p, lo, hi) && AllBalanced(p) && Foldable(p, threshold)
    requires p[0].start <= t < p[QuietRun(p[1..]) + 1].end
    ensures Displayed(p, threshold, t, key) <==> key == BarKey(p[0])
  {
    var n := QuietRun(p[1..]);
    LaneOrder(p, lo, hi);
    BridgeFromHead(p, threshold, lo, hi);
    forall a, b | Bridged(p, threshold, a, b) && p[a].end <= t < p[b].start ensures a == 0 && b == n + 1 {
      BridgeInJoin(p, threshold, t, a, b, lo, hi);
    }
    if p[0].end <= t < p[n + 1].start {
      BridgesTickBy(p, threshold, t, 0, n + 1);
    } else {
      assert forall k :: !BridgesTick(p, threshold, t, k);
      var at := if t < p[0].end then 0 else n + 1;
      assert Shows(p, t, BarKey(p[at]));
      assert forall i :: 0 <= i < |p| && p[i].start <= t < p[i].end ==> i == at;
    }
  }

  /** Beyond the joined bar the display is that of the shortened lane. */
  lemma DisplayedBeyondJoin(p: seq<Bar>, threshold: int, t: int, key: Key, lo: int, hi: int)
    requires Prepared(p, lo, hi) && Foldable(p, threshold)
    requires p[QuietRun(p[1..]) + 1].end <= t
    ensures Displayed(p, threshold, t, key) <==> Displayed(Joined(p, threshold), threshold, t, key)
  {
    var n := QuietRun(p[1..]);
    var q := Joined(p, threshold);
    JoinPrepared(p, threshold, lo, hi);
    ShowsAfter(p, n + 1, t, key, lo, hi);
    ShowsAfter(q, 0, t, key, lo, hi);
    assert q[1..] == p[n + 2..];
    forall k ensures BridgesTick(p, threshold, t, k) <==> BridgesTick(q, threshold, t, k) {
      BridgesBeyondJoin(p, threshold, t, k, lo, hi);
    }
  }

  lemma BridgesBeyondJoin(p: seq<Bar>, threshold: int, t: int, key: Key, lo: int, hi: int)
    requires Lane(p, lo, hi) && AllBalanced(p) && Foldable(p, threshold)
    requires p[QuietRun(p[1..]) + 1].end <= t
    ensures BridgesTick(p, threshold, t, key) <==> BridgesTick(Joined(p, threshold), threshold, t, key)
  {
    var n := QuietRun(p[1..]);
    forall a, b | Bridged(p, threshold, a, b) && p[a].end <= t < p[b].start ensures n + 1 <= a {
      BridgeInJoin(p, threshold, t, a, b, lo, hi);
      LaneOrder(p, lo, hi);
    }
    BridgesShift(p, Joined(p, threshold), threshold, n + 1, t, key);
  }

  /** Folding shows at every tick exactly the key a reader should see there. */
  lemma {:induction false} FoldDisplays(p: seq<Bar>, threshold: int, lo: int, hi: int, t: int, key: Key)
    requires Prepared(p, lo, hi) && lo <= t < hi
    ensures Shows(Fold(p, threshold), t, key) <==> Displayed(p, threshold, t, key)
    decreases |p|
  {
    if Foldable(p, threshold) {
      var n := QuietRun(p[1..]);
      var q := Joined(p, threshold);
      JoinPrepared(p, threshold, lo, hi);
      FoldDisplays(q, threshold, lo, hi, t, key);
      if t < p[n + 1].end {
        DisplayedInJoin(p, threshold, t, key, lo, hi);
        NoBridgeOverHead(q, threshold, t, lo, hi);
        ShowsCons(q[0], q[1..], t, key);
        assert q == [q[0]] + q[1..];
        if Shows(q[1..], t, key) {
          ShowsInside(q[1..], t, key, q[0].end, hi);
        }
      } else {
        DisplayedBeyondJoin(p, threshold, t, key, lo, hi);
      }
    } else {
      var tail := p[1..];
      FoldPrepared(tail, threshold, p[0].end, hi);
      ShowsCons(p[0], Fold(tail, threshold), t, key);
      if Shows(Fold(tail, threshold), t, key) {
        ShowsInside(Fold(tail, threshold), t, key, p[0].end, hi);
      }
      if t < p[0].end {
        NoBridgeOverHead(p, threshold, t, lo, hi);
        ShowsCons(p[0], tail, t, key);
        assert p == [p[0]] + tail;
        if Shows(tail, t, key) {
          ShowsInside(tail, t, key, p[0].end, hi);
        }
      } else {
        FoldDisplays(tail, threshold, p[0].end, hi, t, key);
        DisplayedTail(p, threshold, t, key, lo, hi);
      }
    }
  }

  // ---- Normal form ------------------------------------------------------------------------

  ghost predicate NoBridge(p: seq<Bar>, threshold: int) {
    forall a, b :: !Bridged(p, threshold, a, b)
  }

  /** A quiet run at the front passes through folding untouched. */
  lemma {:induction false} FoldQuietFront(p: seq<Bar>, threshold: int)
    ensures var n := QuietRun(p);
            && n <= |Fold(p, threshold)| && Fold(p, threshold)[..n] == p[..n]
            && (n < |p| <==> n < |Fold(p, threshold)|)
            && (n < |p| ==> BarKey(Fold(p, threshold)[n]) == BarKey(p[n]))
    decreases |p|
  {
    if p != [] {
      if Quiet(p[0].state) {
        var n := QuietRun(p[1..]);
        FoldQuietFront(p[1..], threshold);
        assert p[..n + 1] == [p[0]] + p[1..][..n];
        assert Fold(p, threshold)[..n + 1] == [p[0]] + Fold(p[1..], threshold)[..n];
      } else {
        FoldHead(p, threshold);
      }
    }
  }

  /** No short quiet run between equal occupied keys is left. */
  lemma {:induction false} FoldLeavesNoBridge(p: seq<Bar>, threshold: int, lo: int, hi: int)
    requires Prepared(p, lo, hi)
    ensures NoBridge(Fold(p, threshold), threshold)
    decreases |p|
  {
    if p == [] {
    } else if Foldable(p, threshold) {
      JoinPrepared(p, threshold, lo, hi);
      FoldLeavesNoBridge(Joined(p, threshold), threshold, lo, hi);
    } else {
      var g := Fold(p[1..], threshold);
      var f := [p[0]] + g;
      FoldLeavesNoBridge(p[1..], threshold, p[0].end, hi);
      forall a, b ensures !Bridged(f, threshold, a, b) {
        if a >= 1 && g != [] {
          assert Shifted(f, g, 1);
          BridgeShift(f, g, threshold, 1, a - 1, b - 1);
        } else if a == 0 && Bridged(f, threshold, 0, b) {
          HeadBridgeReflected(p, threshold, b, lo, hi);
        }
      }
    }
  }

  lemma HeadBridgeReflected(p: seq<Bar>, threshold: int, b: int, lo: int, hi: int)
    requires p != [] && Prepared(p, lo, hi)
    requires Bridged([p[0]] + Fold(p[1..], threshold), threshold, 0, b)
    ensures Foldable(p, threshold)
  {
    var g := Fold(p[1..], threshold);
    var f := [p[0]] + g;
    var n := QuietRun(p[1..]);
    FoldQuietFront(p[1..], threshold);
    assert f[1..] == g;
    QuietFrontRun(p[1..], g, n);
    FoldPrepared(p[1..], threshold, p[0].end, hi);
    SameFrontStart(p[1..], g, n, p[0].end, hi);
    BridgeLifted(p, g, threshold, n);
    BridgeFromHead(p, threshold, lo, hi);
  }

  lemma BridgeLifted(p: seq<Bar>, g: seq<Bar>, threshold: int, n: nat)
    requires p != [] && n == QuietRun(p[1..]) && n < |g| && n < |p[1..]|
    requires Bridged([p[0]] + g, threshold, 0, n + 1)
    requires BarKey(g[n]) == BarKey(p[1..][n]) && g[n].start == p[1..][n].start
    ensures Bridged(p, threshold, 0, n + 1)
  {
    assert ([p[0]] + g)[n + 1] == g[n] && p[n + 1] == p[1..][n];
    assert forall m :: 0 < m < n + 1 ==> p[m] == p[1..][m - 1];
  }

  lemma QuietFrontRun(p: seq<Bar>, g: seq<Bar>, n: nat)
    requires n == QuietRun(p) && n <= |g| && g[..n] == p[..n]
    requires n < |p| <==> n < |g|
    requires n < |p| ==> BarKey(g[n]) == BarKey(p[n])
    ensures QuietRun(g) == n
  {
    assert forall i :: 0 <= i < n ==> g[i] == g[..n][i] == p[..n][i] == p[i];
    assert n < |p| ==> BarKey(g[n]).state == g[n].state && BarKey(p[n]).state == p[n].state;
  }

  /** Lanes that begin alike reach the next bar at the same tick. */
  lemma {:induction false} SameFrontStart(p: seq<Bar>, g: seq<Bar>, n: nat, lo: int, hi: int)
    requires Lane(p, lo, hi) && Lane(g, lo, hi) && n < |p| && n < |g| && p[..n] == g[..n]
    ensures p[n].start == g[n].start
  {
    if n > 0 {
      assert p[0] == p[..n][0] == g[..n][0] == g[0];
      assert p[1..][..n - 1] == p[..n][1..] == g[..n][1..] == g[1..][..n - 1];
      SameFrontStart(p[1..], g[1..], n - 1, p[0].end, hi);
    }
  }

  lemma {:induction false} NoBridgeFoldsToItself(p: seq<Bar>, threshold: int, lo: int, hi: int)
    requires NoBridge(p, threshold) && Lane(p, lo, hi) && AllBalanced(p)
    ensures Fold(p, threshold) == p
  {
    if p != [] {
      BridgeFromHead(p, threshold, lo, hi);
      forall a, b ensures !Bridged(p[1..], threshold, a, b) {
        if a >= 0 && p[1..] != [] {
          assert Shifted(p, p[1..], 1);
          BridgeShift(p, p[1..], threshold, 1, a, b);
        }
      }
      assert forall b :: b in p[1..] ==> b in p;
      NoBridgeFoldsToItself(p[1..], threshold, p[0].end, hi);
    }
  }

  /** With no tolerance at all a lane has no bridges, so both branches of the source agree. */
  lemma NoTolerance(p: seq<Bar>, threshold: int, lo: int, hi: int)
    requires Prepared(p, lo, hi) && threshold <= 0
    ensures Fold(p, threshold) == p
  {
    LaneOrder(p, lo, hi);
    forall a, b ensures !Bridged(p, threshold, a, b) {
      if 0 <= a && a + 1 < b < |p| {
        assert p[a].end <= p[a + 1].start < p[a + 1].end <= p[b].start;
      }
    }
    NoBridgeFoldsToItself(p, threshold, lo, hi);
  }

  lemma CoalescedIsFold(s: seq<Segment>, threshold: int, lo: int, hi: int)
    requires RawLane(s, lo, hi)
    ensures Coalesced(s, threshold) == Fold(Prepare(s), threshold)
  {
    PrepareKeeps(s, lo, hi);
    if threshold <= 0 {
      NoTolerance(Prepare(s), threshold, lo, hi);
    }
  }

  // ---- Main results -----------------------------------------------------------------------

  /** Coalescing a contiguous lane keeps its span and conserves its time: every bar's length is
      observed plus bridged time, the bars account for the whole lane, and each occupied key keeps
      exactly the observed time it had in the raw segments. */
  lemma CoalescingConservesTime(s: seq<Segment>, threshold: int, lo: int, hi: int, key: Key)
    requires RawLane(s, lo, hi)
    ensures var bars := Coalesced(s, threshold);
            && Lane(bars, lo, hi)
            && (forall b :: b in bars ==> b.duration == b.end - b.start == b.observed + b.gap)
            && Accounted(bars) == hi - lo
            && (!Quiet(key.state) ==> ObservedFor(bars, key) == RawFor(s, key))
  {
    var p := Prepare(s);
    PrepareKeeps(s, lo, hi);
    CoalescedIsFold(s, threshold, lo, hi);
    FoldPrepared(p, threshold, lo, hi);
    LaneTotal(Fold(p, threshold), lo, hi);
    if !Quiet(key.state) {
      FoldObserved(p, threshold, key);
    }
  }

  /** Neighbouring bars differ, no short quiet run between equal occupied keys survives, and every
      tick shows the key a reader should see: the bridging key in a short quiet run, else its own. */
  lemma CoalescingNormalForm(s: seq<Segment>, threshold: int, lo: int, hi: int, t: int, key: Key)
    requires RawLane(s, lo, hi) && lo <= t < hi
    ensures var bars := Coalesced(s, threshold);
            && NoTwins(bars) && NoBridge(bars, threshold)
            && (Shows(bars, t, key) <==> Displayed(Prepare(s), threshold, t, key))
  {
    var p := Prepare(s);
    PrepareKeeps(s, lo, hi);
    CoalescedIsFold(s, threshold, lo, hi);
    FoldPrepared(p, threshold, lo, hi);
    FoldLeavesNoBridge(p, threshold, lo, hi);
    FoldDisplays(p, threshold, lo, hi, t, key);
  }

  // ---- Sample counts --------------------------------------------------------------------------

  function Samples(p: seq<Bar>): int {
    if p == [] then 0 else p[0].sampleCount + Samples(p[1..])
  }

  ghost predicate Sampled(p: seq<Bar>) {
    forall b :: b in p ==> b.sampleCount >= 1
  }

  lemma {:induction false} SamplesConcat(a: seq<Bar>, b: seq<Bar>)
    ensures Samples(a + b) == Samples(a) + Samples(b)
  {
    if a == [] {
      assert a + b == b;
    } else {
      SamplesConcat(a[1..], b);
      assert (a + b)[1..] == a[1..] + b;
    }
  }

  lemma {:induction false} SamplesAtLeast(p: seq<Bar>)
    requires Sampled(p)
    ensures Samples(p) >= |p|
  {
    if p != [] {
      assert forall b :: b in p[1..] ==> b in p;
      assert p[0] in p;
      SamplesAtLeast(p[1..]);
    }
  }

  lemma {:induction false} PrepareSamples(s: seq<Segment>)
    ensures Sampled(Prepare(s)) && Samples(Prepare(s)) == |s|
  {
    if s != [] {
      var init := Prepare(s[..|s| - 1]);
      PrepareSamples(s[..|s| - 1]);
      AbsorbSamples(init, s[|s| - 1]);
    }
  }

  lemma SamplesSnoc(p: seq<Bar>, b: Bar)
    requires Sampled(p) && b.sampleCount >= 1
    ensures Sampled(p + [b]) && Samples(p + [b]) == Samples(p) + b.sampleCount
  {
    SamplesConcat(p, [b]);
    assert Samples([b]) == b.sampleCount + Samples([]);
  }

  lemma AbsorbSamples(p: seq<Bar>, s: Segment)
    requires Sampled(p)
    ensures Sampled(Absorb(p, s)) && Samples(Absorb(p, s)) == Samples(p) + 1
  {
    SamplesSnoc(p, Fresh(s));
    if p != [] {
      var init, last := p[..|p| - 1], p[|p| - 1];
      assert p == init + [last] && last in p;
      assert forall b :: b in init ==> b in p;
      SamplesSnoc(init, last);
      SamplesSnoc(init, MergePair(last, Fresh(s), 0));
    }
  }

  lemma JoinedSamples(p: seq<Bar>, threshold: int)
    requires Sampled(p) && Foldable(p, threshold)
    ensures Sampled(Joined(p, threshold)) && Samples(Joined(p, threshold)) < Samples(p)
  {
    var n := QuietRun(p[1..]);
    var run, rest := p[1..n + 1], p[n + 2..];
    var m := MergePair(p[0], p[n + 1], Total(run));
    assert p[0] in p && p[n + 1] in p;
    assert p == [p[0]] + run + [p[n + 1]] + rest;
    SamplesConcat([p[0]] + run + [p[n + 1]], rest);
    SamplesConcat([p[0]] + run, [p[n + 1]]);
    SamplesConcat([p[0]], run);
    assert Samples([p[0]]) == p[0].sampleCount && Samples([p[n + 1]]) == p[n + 1].sampleCount;
    assert forall b :: b in run ==> b in p;
    SamplesAtLeast(run);
    assert Joined(p, threshold)[1..] == rest;
    assert forall b :: b in Joined(p, threshold) ==> b == m || b in p;
  }

  lemma {:induction false} FoldSamples(p: seq<Bar>, threshold: int)
    requires Sampled(p)
    ensures Samples(Fold(p, threshold)) <= Samples(p)
    ensures Samples(Fold(p, threshold)) == Samples(p) <==> Fold(p, threshold) == p
    decreases |p|
  {
    if p == [] {
    } else if Foldable(p, threshold) {
      JoinedSamples(p, threshold);
      FoldSamples(Joined(p, threshold), threshold);
    } else {
      assert forall b :: b in p[1..] ==> b in p;
      FoldSamples(p[1..], threshold);
      assert Fold(p, threshold)[1..] == Fold(p[1..], threshold);
    }
  }

  /** Sample counts, unlike time, are not conserved: a folded quiet run drops its samples, so the counts
      add up to the number of raw segments exactly when there was no quiet run to fold. */
  lemma SampleCountsKeptExactly(s: seq<Segment>, threshold: int, lo: int, hi: int)
    requires RawLane(s, lo, hi)
    ensures Samples(Coalesced(s, threshold)) <= |s|
    ensures Samples(Coalesced(s, threshold)) == |s| <==> NoBridge(Prepare(s), threshold)
  {
    var p := Prepare(s);
    PrepareKeeps(s, lo, hi);
    CoalescedIsFold(s, threshold, lo, hi);
    PrepareSamples(s);
    FoldSamples(p, threshold);
    FoldLeavesNoBridge(p, threshold, lo, hi);
    if NoBridge(p, threshold) {
      NoBridgeFoldsToItself(p, threshold, lo, hi);
    }
  }

  // ---- Running it again -----------------------------------------------------------------------

  /** A display bar handed in again as a segment. */
  function AsSegment(b: Bar): Segment {
    Span(b.start, b.end, Meta(b.state, b.taskName, b.attribution, b.process, None, b.firstSample))
  }

  function AsSegments(p: seq<Bar>): seq<Segment> {
    seq(|p|, i requires 0 <= i < |p| => AsSegment(p[i]))
  }

  /** Same intervals, same keys. */
  ghost predicate SameDisplay(p: seq<Bar>, q: seq<Bar>) {
    |p| == |q| && forall i :: 0 <= i < |p| ==>
      p[i].start == q[i].start && p[i].end == q[i].end && BarKey(p[i]) == BarKey(q[i])
  }

  lemma SameDisplaySnoc(p: seq<Bar>, q: seq<Bar>, x: Bar, y: Bar)
    requires SameDisplay(p, q) && x.start == y.start && x.end == y.end && BarKey(x) == BarKey(y)
    ensures SameDisplay(p + [x], q + [y])
  {
  }

  lemma RawLaneSnoc(s: seq<Segment>, x: Segment, lo: int)
    requires RawLane(s, lo, x.start) && x.start < x.end
    ensures RawLane(s + [x], lo, x.end)
  {
    assert (s + [x])[..|s|] == s;
  }

  /** Joining has nothing to join among bars whose neighbours differ. */
  lemma {:induction false} PrepareAgain(p: seq<Bar>, lo: int, hi: int)
    requires Prepared(p, lo, hi)
    ensures SameDisplay(p, Prepare(AsSegments(p)))
    ensures RawLane(AsSegments(p), lo, hi)
  {
    if p != [] {
      var init, last := p[..|p| - 1], p[|p| - 1];
      InitPrepared(p, lo, hi);
      PrepareAgain(init, lo, last.start);
      AbsorbDistinct(init, Prepare(AsSegments(init)), last);
      RawLaneSnoc(AsSegments(init), AsSegment(last), lo);
      FreshFacts(AsSegment(last));
      SameDisplaySnoc(init, Prepare(AsSegments(init)), last, Fresh(AsSegment(last)));
      assert p == init + [last];
      assert AsSegments(p) == AsSegments(init) + [AsSegment(last)];
    }
  }

  lemma InitPrepared(p: seq<Bar>, lo: int, hi: int)
    requires Prepared(p, lo, hi) && p != []
    ensures var init, last := p[..|p| - 1], p[|p| - 1];
            && Prepared(init, lo, last.start) && last.start < last.end == hi
            && (init != [] ==> BarKey(init[|init| - 1]) != BarKey(last))
  {
    LaneOrder(p, lo, hi);
    LaneInit(p, lo, hi);
    assert forall b :: b in p[..|p| - 1] ==> b in p;
    assert p[|p| - 1] in p;
    if |p| > 1 {
      assert BarKey(p[|p| - 2]) != BarKey(p[|p| - 1]);
    }
  }

  lemma AbsorbDistinct(init: seq<Bar>, q: seq<Bar>, last: Bar)
    requires SameDisplay(init, q) && last.start < last.end
    requires init != [] ==> BarKey(init[|init| - 1]) != BarKey(last)
    ensures Absorb(q, AsSegment(last)) == q + [Fresh(AsSegment(last))]
  {
    FreshFacts(AsSegment(last));
  }

  lemma SameDisplayNoBridge(p: seq<Bar>, q: seq<Bar>, threshold: int)
    requires SameDisplay(p, q) && NoBridge(p, threshold)
    ensures NoBridge(q, threshold)
  {
    assert forall i :: 0 <= i < |p| ==> BarKey(p[i]).state == p[i].state && BarKey(q[i]).state == q[i].state;
    forall a, b ensures !Bridged(q, threshold, a, b) {
      assert !Bridged(p, threshold, a, b);
    }
  }

  /** A second run over its own output changes no bar's start, end or key. */
  lemma CoalescingIsStable(s: seq<Segment>, threshold: int, lo: int, hi: int)
    requires RawLane(s, lo, hi)
    ensures var bars := Coalesced(s, threshold);
            SameDisplay(bars, Coalesced(AsSegments(bars), threshold))
  {
    var bars := Coalesced(s, threshold);
    PrepareKeeps(s, lo, hi);
    CoalescedIsFold(s, threshold, lo, hi);
    FoldPrepared(Prepare(s), threshold, lo, hi);
    FoldLeavesNoBridge(Prepare(s), threshold, lo, hi);
    PrepareAgain(bars, lo, hi);
    var again := Prepare(AsSegments(bars));
    PrepareKeeps(AsSegments(bars), lo, hi);
    SameDisplayNoBridge(bars, again, threshold);
    NoBridgeFoldsToItself(again, threshold, lo, hi);
    CoalescedIsFold(AsSegments(bars), threshold, lo, hi);
  }
}

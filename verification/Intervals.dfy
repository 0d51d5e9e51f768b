/** Interval union and the two-pointer overlap sweep of the daily report.

    Time is counted in integer ticks; an interval denotes the ticks from `start` up to but
    excluding `end`, so lengths are numbers of ticks. */
module Intervals {
  import opened Prelude
  import opened Sorting

  datatype Interval = Interval(start: int, end: int)

  // ---- Denotation -------------------------------------------------------------------------

  ghost function Ticks(l: int, r: int): (s: set<int>)
    ensures forall t :: t in s <==> l <= t < r
    decreases r - l
  {
    if l < r then Ticks(l, r - 1) + {r - 1} else {}
  }

  lemma {:induction false} TicksSize(l: int, r: int)
    ensures |Ticks(l, r)| == if l < r then r - l else 0
    decreases r - l
  {
    if l < r {
      TicksSize(l, r - 1);
    }
  }

  ghost predicate Holds(v: Interval, t: int) {
    v.start <= t < v.end
  }

  ghost function Cover(s: seq<Interval>): set<int> {
    if s == [] then {} else Ticks(s[0].start, s[0].end) + Cover(s[1..])
  }

  lemma {:induction false} InCover(s: seq<Interval>, t: int)
    ensures t in Cover(s) <==> exists v :: v in s && Holds(v, t)
  {
    if s != [] {
      InCover(s[1..], t);
      assert s == [s[0]] + s[1..];
      assert t in Ticks(s[0].start, s[0].end) <==> Holds(s[0], t);
    }
  }

  lemma UnionSize(a: set<int>, b: set<int>)
    ensures |a + b| <= |a| + |b|
  {
    assert |a + b| == |a| + |b| - |a * b|;
  }

  function Lengths(s: seq<Interval>): seq<int> {
    seq(|s|, i requires 0 <= i < |s| => if s[i].start < s[i].end then s[i].end - s[i].start else 0)
  }

  lemma LengthsSnoc(s: seq<Interval>, v: Interval)
    ensures Sum(Lengths(s + [v])) == Sum(Lengths(s)) + if v.start < v.end then v.end - v.start else 0
  {
    var n := if v.start < v.end then v.end - v.start else 0;
    assert Lengths(s + [v]) == Lengths(s) + [n];
    SumSnoc(Lengths(s), n);
  }

  lemma LengthsTail(s: seq<Interval>)
    requires s != []
    ensures Sum(Lengths(s)) == |Ticks(s[0].start, s[0].end)| + Sum(Lengths(s[1..]))
  {
    assert Lengths(s)[1..] == Lengths(s[1..]);
    TicksSize(s[0].start, s[0].end);
  }

  /** Double counting can only enlarge a total: the ticks covered are at most the summed lengths. */
  lemma {:induction false} CoverAtMostLengths(s: seq<Interval>)
    ensures |Cover(s)| <= Sum(Lengths(s))
  {
    if s != [] {
      CoverAtMostLengths(s[1..]);
      LengthsTail(s);
      UnionSize(Ticks(s[0].start, s[0].end), Cover(s[1..]));
    }
  }

  lemma {:induction false} CoverConcat(a: seq<Interval>, b: seq<Interval>)
    ensures Cover(a + b) == Cover(a) + Cover(b)
  {
    if a == [] {
      assert a + b == b;
    } else {
      CoverConcat(a[1..], b);
      assert (a + b)[1..] == a[1..] + b;
    }
  }

  lemma CoverSnoc(s: seq<Interval>, v: Interval)
    ensures Cover(s + [v]) == Cover(s) + Ticks(v.start, v.end)
  {
    CoverConcat(s, [v]);
    assert Cover([v]) == Ticks(v.start, v.end);
  }

  lemma SameElementsSameCover(a: seq<Interval>, b: seq<Interval>)
    requires forall v :: v in a <==> v in b
    ensures Cover(a) == Cover(b)
  {
    forall t ensures t in Cover(a) <==> t in Cover(b) {
      InCover(a, t);
      InCover(b, t);
    }
  }

  /** A set of ticks up to `mid` grows by the whole stretch up to `hi`, or not at all. */
  lemma TicksGrow(a: set<int>, b: set<int>, lo: int, mid: int, hi: int, counted: bool)
    requires lo <= mid <= hi && a <= Ticks(lo, mid)
    requires forall t :: t in b <==> t in a || (counted && mid <= t < hi)
    ensures b == a + (if counted then Ticks(mid, hi) else {})
    ensures |b| == |a| + if counted then hi - mid else 0
  {
    assert b == a + if counted then Ticks(mid, hi) else {};
    assert a !! Ticks(mid, hi);
    TicksSize(mid, hi);
  }

  /** Beyond position `k` the list covers and lasts longer by the interval appended, if any. */
  lemma TailGrows(was: seq<Interval>, now: seq<Interval>, k: nat, from: int, end: int, counted: bool)
    requires k <= |was| && from < end
    requires now == was + if counted then [Interval(from, end)] else []
    ensures Cover(now[k..]) == Cover(was[k..]) + if counted then Ticks(from, end) else {}
    ensures Sum(Lengths(now[k..])) == Sum(Lengths(was[k..])) + if counted then end - from else 0
  {
    if counted {
      assert now[k..] == was[k..] + [Interval(from, end)];
      CoverSnoc(was[k..], Interval(from, end));
      LengthsSnoc(was[k..], Interval(from, end));
    } else {
      assert now == was;
    }
  }

  // ---- Union ------------------------------------------------------------------------------

  /** Non-empty intervals in ascending order with at least one uncovered tick between neighbours. */
  ghost predicate Normal(s: seq<Interval>) {
    && (forall i :: 0 <= i < |s| ==> s[i].start < s[i].end)
    && (forall i, j :: 0 <= i < j < |s| ==> s[i].end < s[j].start)
  }

  predicate Earlier(a: Interval, b: Interval) {
    a.start < b.start || (a.start == b.start && a.end <= b.end)
  }

  function NonEmpty(s: seq<Interval>): (r: seq<Interval>)
    ensures Cover(r) == Cover(s)
    ensures forall v :: v in r ==> v.start < v.end
  {
    if s == [] then []
    else if s[0].start < s[0].end then [s[0]] + NonEmpty(s[1..])
    else NonEmpty(s[1..])
  }

  /** The intervals in the order in which `Union` visits them. */
  function Ordered(s: seq<Interval>): seq<Interval> {
    Sort(Earlier, NonEmpty(s))
  }

  lemma OrderedFacts(s: seq<Interval>)
    ensures SortedBy(Earlier, Ordered(s))
    ensures forall v :: v in Ordered(s) ==> v.start < v.end
    ensures Cover(Ordered(s)) == Cover(s)
  {
    SortSorted(Earlier, NonEmpty(s));
    MultisetMembers(Ordered(s), NonEmpty(s));
    SameElementsSameCover(Ordered(s), NonEmpty(s));
  }

  /** Merge overlapping or touching intervals. */
  method Union(intervals: seq<Interval>) returns (result: seq<Interval>)
    ensures Normal(result)
    ensures Cover(result) == Cover(intervals)
  {
    var ordered := Ordered(intervals);
    OrderedFacts(intervals);
    result := [];
    for k := 0 to |ordered|
      invariant Normal(result) && (result == [] ==> k == 0)
      invariant Cover(result) == Cover(ordered[..k])
      invariant result != [] ==> 0 < k && result[|result| - 1].start <= ordered[k - 1].start
    {
      var v := ordered[k];
      VisitNext(ordered, k);
      UnionStep(result, v);
      if result == [] || v.start > result[|result| - 1].end {
        result := result + [v];
      } else {
        var last := result[|result| - 1];
        result := result[..|result| - 1] + [Interval(last.start, Max(last.end, v.end))];
      }
    }
    assert ordered[..|ordered|] == ordered;
  }

  lemma VisitNext(ordered: seq<Interval>, k: nat)
    requires k < |ordered| && SortedBy(Earlier, ordered)
    requires forall v :: v in ordered ==> v.start < v.end
    ensures ordered[k].start < ordered[k].end
    ensures k > 0 ==> ordered[k - 1].start <= ordered[k].start
    ensures Cover(ordered[..k + 1]) == Cover(ordered[..k]) + Ticks(ordered[k].start, ordered[k].end)
  {
    assert ordered[k] in ordered;
    assert k > 0 ==> Earlier(ordered[k - 1], ordered[k]);
    assert ordered[..k + 1] == ordered[..k] + [ordered[k]];
    CoverSnoc(ordered[..k], ordered[k]);
  }

  /** One iteration: a later interval either starts a new block or widens the last one. */
  lemma UnionStep(s: seq<Interval>, v: Interval)
    requires Normal(s) && v.start < v.end
    requires s != [] ==> s[|s| - 1].start <= v.start
    ensures var r := if s == [] || v.start > s[|s| - 1].end then s + [v]
                     else s[..|s| - 1] + [Interval(s[|s| - 1].start, Max(s[|s| - 1].end, v.end))];
            Normal(r) && Cover(r) == Cover(s) + Ticks(v.start, v.end)
  {
    if s == [] || v.start > s[|s| - 1].end {
      CoverSnoc(s, v);
    } else {
      ExtendLast(s, v);
    }
  }

  lemma ExtendLast(s: seq<Interval>, v: Interval)
    requires Normal(s) && s != [] && s[|s| - 1].start <= v.start <= s[|s| - 1].end
    ensures var wider := s[..|s| - 1] + [Interval(s[|s| - 1].start, Max(s[|s| - 1].end, v.end))];
            Normal(wider) && Cover(wider) == Cover(s) + Ticks(v.start, v.end)
  {
    WidenCover(s[..|s| - 1], s[|s| - 1], v);
    assert s == s[..|s| - 1] + [s[|s| - 1]];
  }

  lemma WidenCover(init: seq<Interval>, last: Interval, v: Interval)
    requires last.start <= v.start <= last.end
    ensures Cover(init + [Interval(last.start, Max(last.end, v.end))])
            == Cover(init + [last]) + Ticks(v.start, v.end)
  {
    CoverSnoc(init, last);
    CoverSnoc(init, Interval(last.start, Max(last.end, v.end)));
  }

  lemma HeadApart(s: seq<Interval>)
    requires Normal(s) && s != []
    ensures forall t :: t in Cover(s[1..]) ==> t > s[0].end
    ensures Cover(s[1..]) == Cover(s) - Ticks(s[0].start, s[0].end)
  {
    forall t | t in Cover(s[1..]) ensures t > s[0].end {
      InCover(s[1..], t);
    }
  }

  /** A normal form is determined by the ticks it covers. */
  lemma {:induction false} NormalCanonical(a: seq<Interval>, b: seq<Interval>)
    requires Normal(a) && Normal(b) && Cover(a) == Cover(b)
    ensures a == b
  {
    if a != [] && b != [] {
      HeadApart(a);
      HeadApart(b);
      assert a[0].start in Cover(a) && b[0].start in Cover(b);
      assert a[0].start == b[0].start;
      assert a[0].end !in Cover(a) && b[0].end !in Cover(b);
      assert a[0].end == b[0].end;
      NormalCanonical(a[1..], b[1..]);
      assert a == [a[0]] + a[1..] && b == [b[0]] + b[1..];
    }
  }

  /** Unions are canonical: two of them are identical exactly when their inputs cover the same ticks. */
  lemma UnionsAgreeExactly(a: seq<Interval>, b: seq<Interval>, ua: seq<Interval>, ub: seq<Interval>)
    requires Normal(ua) && Cover(ua) == Cover(a)
    requires Normal(ub) && Cover(ub) == Cover(b)
    ensures ua == ub <==> Cover(a) == Cover(b)
  {
    if Cover(a) == Cover(b) {
      NormalCanonical(ua, ub);
    }
  }

  // ---- Overlap ----------------------------------------------------------------------------

  /** The number of ticks covered on both sides. */
  ghost function Overlap(left: seq<Interval>, right: seq<Interval>): nat {
    |Cover(left) * Cover(right)|
  }

  lemma OverlapCommutes(left: seq<Interval>, right: seq<Interval>)
    ensures Overlap(left, right) == Overlap(right, left)
  {
    assert Cover(left) * Cover(right) == Cover(right) * Cover(left);
  }

  lemma NothingLeft(x: seq<Interval>, y: seq<Interval>)
    requires x == [] || y == []
    ensures Overlap(x, y) == 0
  {
    assert Cover(x) * Cover(y) == {};
  }

  lemma SameCoverSameOverlap(x: seq<Interval>, y: seq<Interval>, x': seq<Interval>, y': seq<Interval>)
    requires Cover(x) == Cover(x') && Cover(y) == Cover(y')
    ensures Overlap(x, y) == Overlap(x', y')
  {
  }

  /** How many of the common ticks lie in the intervals from `a` and `b` on. */
  ghost predicate Ahead(first: seq<Interval>, second: seq<Interval>, a: nat, b: nat, n: int) {
    a <= |first| && b <= |second| && n == Overlap(first[a..], second[b..])
  }

  lemma AheadAtStart(first: seq<Interval>, second: seq<Interval>)
    ensures Ahead(first, second, 0, 0, Overlap(first, second))
  {
    assert first[0..] == first && second[0..] == second;
  }

  lemma AheadAtEnd(first: seq<Interval>, second: seq<Interval>, a: nat, b: nat, n: int)
    requires Ahead(first, second, a, b, n) && (a == |first| || b == |second|)
    ensures n == 0
  {
    NothingLeft(first[a..], second[b..]);
  }

  /** Advance the pointer whose interval ends first, counting what the two intervals have in common. */
  method Move(first: seq<Interval>, second: seq<Interval>, a: nat, b: nat, ghost n: int)
    returns (gain: int, a': nat, b': nat)
    requires Normal(first) && Normal(second) && a < |first| && b < |second| && Ahead(first, second, a, b, n)
    ensures Ahead(first, second, a', b', n - gain)
    ensures (a' == a + 1 && b' == b) || (a' == a && b' == b + 1)
  {
    var start := Max(first[a].start, second[b].start);
    var end := Min(first[a].end, second[b].end);
    SweepStep(first, second, a, b);
    gain := if end > start then end - start else 0;
    if first[a].end < second[b].end {
      a', b' := a + 1, b;
    } else {
      a', b' := a, b + 1;
    }
  }

  /** The two-pointer sweep over two lists without overlaps of their own. */
  method Sweep(first: seq<Interval>, second: seq<Interval>) returns (total: int)
    requires Normal(first) && Normal(second)
    ensures total == Overlap(first, second)
  {
    var a, b := 0, 0;
    total := 0;
    ghost var goal := Overlap(first, second);
    AheadAtStart(first, second);
    while a < |first| && b < |second|
      invariant 0 <= a <= |first| && 0 <= b <= |second|
      invariant Ahead(first, second, a, b, goal - total)
      decreases |first| - a + |second| - b
    {
      var gain, nextA, nextB := Move(first, second, a, b, goal - total);
      total := total + gain;
      a, b := nextA, nextB;
    }
    AheadAtEnd(first, second, a, b, goal - total);
  }

  /** Total overlap of two interval lists, whatever the overlaps within each. */
  method IntersectionDuration(left: seq<Interval>, right: seq<Interval>) returns (total: int)
    ensures total == Overlap(left, right)
  {
    var first := Union(left);
    var second := Union(right);
    SameCoverSameOverlap(first, second, left, right);
    total := Sweep(first, second);
  }

  lemma SweepStep(first: seq<Interval>, second: seq<Interval>, a: nat, b: nat)
    requires Normal(first) && Normal(second) && a < |first| && b < |second|
    ensures var gain := Max(0, Min(first[a].end, second[b].end) - Max(first[a].start, second[b].start));
            Overlap(first[a..], second[b..])
              == gain + if first[a].end < second[b].end then Overlap(first[a + 1..], second[b..])
                        else Overlap(first[a..], second[b + 1..])
  {
    var x, y := first[a..], second[b..];
    assert x[1..] == first[a + 1..] && y[1..] == second[b + 1..];
    if first[a].end < second[b].end {
      DropEarlierEnd(x, y);
    } else {
      DropEarlierEnd(y, x);
      OverlapCommutes(x, y);
      OverlapCommutes(x, y[1..]);
    }
  }

  /** The head that ends first meets nothing beyond the other list's head. */
  lemma DropEarlierEnd(x: seq<Interval>, y: seq<Interval>)
    requires Normal(x) && Normal(y) && x != [] && y != []
    requires x[0].end <= y[0].end
    ensures Overlap(x, y) == Overlap(x[1..], y)
                             + Max(0, Min(x[0].end, y[0].end) - Max(x[0].start, y[0].start))
  {
    HeadApart(x);
    HeadApart(y);
    var meet := Ticks(Max(x[0].start, y[0].start), Min(x[0].end, y[0].end));
    var rest := Cover(x[1..]) * Cover(y);
    assert Cover(x) * Cover(y) == meet + rest;
    assert meet !! rest;
    TicksSize(Max(x[0].start, y[0].start), Min(x[0].end, y[0].end));
  }

  /** The overlap of two interval lists inside a window is bounded by each list's summed
      duration and by the window, however much the lists overlap themselves. */
  lemma OverlapBounds(left: seq<Interval>, right: seq<Interval>, lo: int, hi: int)
    requires lo <= hi && Cover(left) <= Ticks(lo, hi)
    ensures Overlap(left, right) <= Sum(Lengths(left))
    ensures Overlap(left, right) <= Sum(Lengths(right))
    ensures Overlap(left, right) <= hi - lo
  {
    SubsetSize(Cover(left) * Cover(right), Cover(left));
    SubsetSize(Cover(left) * Cover(right), Cover(right));
    CoverAtMostLengths(left);
    CoverAtMostLengths(right);
    SubsetSize(Cover(left), Ticks(lo, hi));
    TicksSize(lo, hi);
  }
}

/** How many waiters a batch starts, against the most that any choice of waiters could start. */
module PlannerOptimality {
  import opened Prelude
  import opened Sorting
  import opened Planner
  import opened PlannerTheorems

  // ---- The cheapest choice --------------------------------------------------------------------

  predicate AtMost(a: int, b: int) {
    a <= b
  }

  /** The first `c` elements of `r` cost the cheaper of: the first `c` of `t`, or `x` and `c - 1` of `t`. */
  ghost predicate CheaperFront(x: int, t: seq<int>, r: seq<int>, c: nat)
    requires |r| == |t| + 1 && c <= |t| + 1
  {
    && (c > 0 ==> Sum(r[..c]) <= x + Sum(t[..c - 1]))
    && (c <= |t| ==> Sum(r[..c]) <= Sum(t[..c]))
    && ((c > 0 && Sum(r[..c]) == x + Sum(t[..c - 1])) || (c <= |t| && Sum(r[..c]) == Sum(t[..c])))
  }

  lemma FrontAtHead(x: int, t: seq<int>, c: nat)
    requires c <= |t| + 1 && forall i :: 0 <= i < |t| ==> x <= t[i]
    ensures CheaperFront(x, t, [x] + t, c)
  {
    if c > 0 {
      assert ([x] + t)[..c] == [x] + t[..c - 1];
      if c <= |t| {
        assert t[..c] == t[..c - 1] + [t[c - 1]];
        SumSnoc(t[..c - 1], t[c - 1]);
      }
    }
  }

  lemma FrontBehindHead(x: int, t: seq<int>, rest: seq<int>, c: nat)
    requires t != [] && t[0] <= x && |rest| == |t| && c <= |t|
    requires CheaperFront(x, t[1..], rest, c)
    ensures CheaperFront(x, t, [t[0]] + rest, c + 1)
  {
    assert ([t[0]] + rest)[..c + 1] == [t[0]] + rest[..c];
    if c < |t| {
      assert t[..c + 1] == [t[0]] + t[1..][..c];
    }
    if c > 0 {
      assert t[..c] == [t[0]] + t[1..][..c - 1];
    }
  }

  /** Sorted insertion keeps the smallest elements in front. */
  lemma {:induction false} InsertFront(x: int, t: seq<int>, c: nat)
    requires SortedBy(AtMost, t) && c <= |t| + 1
    ensures |Insert(AtMost, x, t)| == |t| + 1
    ensures CheaperFront(x, t, Insert(AtMost, x, t), c)
  {
    if t == [] || x <= t[0] {
      assert forall i :: 0 < i < |t| ==> AtMost(t[0], t[i]);
      FrontAtHead(x, t, c);
    } else {
      InsertFront(x, t[1..], if c == 0 then 0 else c - 1);
      if c > 0 {
        FrontBehindHead(x, t, Insert(AtMost, x, t[1..]), c - 1);
      }
    }
  }

  lemma AtMostOrders(s: seq<int>)
    ensures SortedBy(AtMost, Sort(AtMost, s))
  {
    SortSorted(AtMost, s);
  }

  /** Any choice of waiters costs at least as much as the equally many smallest minimums. */
  lemma {:induction false} CheapestIsLeast(mins: seq<int>, mask: seq<bool>)
    requires |mask| == |mins|
    ensures Count(mask) <= |mins|
    ensures Sum(Sort(AtMost, mins)[..Count(mask)]) <= Sum(Pick(mins, mask))
  {
    if mins != [] {
      CheapestIsLeast(mins[1..], mask[1..]);
      AtMostOrders(mins[1..]);
      InsertFront(mins[0], Sort(AtMost, mins[1..]), Count(mask));
    }
  }

  lemma HeadTaken(mins: seq<int>, rest: seq<bool>)
    requires mins != [] && |rest| == |mins| - 1
    ensures Pick(mins, [true] + rest) == [mins[0]] + Pick(mins[1..], rest)
    ensures Count([true] + rest) == 1 + Count(rest)
  {
    assert ([true] + rest)[1..] == rest;
  }

  lemma HeadSkipped(mins: seq<int>, rest: seq<bool>)
    requires mins != [] && |rest| == |mins| - 1
    ensures Pick(mins, [false] + rest) == Pick(mins[1..], rest)
    ensures Count([false] + rest) == Count(rest)
  {
    assert ([false] + rest)[1..] == rest;
  }

  /** Some choice of `c` waiters costs exactly the `c` smallest minimums. */
  lemma {:induction false} CheapestIsChosen(mins: seq<int>, c: nat) returns (mask: seq<bool>)
    requires c <= |mins|
    ensures |mask| == |mins| && Count(mask) == c
    ensures Sum(Pick(mins, mask)) == Sum(Sort(AtMost, mins)[..c])
  {
    if mins == [] {
      mask := [];
    } else {
      var t := Sort(AtMost, mins[1..]);
      AtMostOrders(mins[1..]);
      InsertFront(mins[0], t, c);
      if c <= |t| && Sum(Sort(AtMost, mins)[..c]) == Sum(t[..c]) {
        var rest := CheapestIsChosen(mins[1..], c);
        HeadSkipped(mins, rest);
        mask := [false] + rest;
      } else {
        var rest := CheapestIsChosen(mins[1..], c - 1);
        HeadTaken(mins, rest);
        mask := [true] + rest;
      }
    }
  }

  // ---- How many could start -------------------------------------------------------------------

  /** How many elements from the front of `t` fit into the budget together. */
  function Affordable(t: seq<int>, budget: int): nat {
    if t == [] || t[0] > budget then 0 else 1 + Affordable(t[1..], budget - t[0])
  }

  /** How many of the smallest minimums fit into the budget together. */
  function CheapestFirst(mins: seq<int>, budget: int): nat {
    Affordable(Sort(AtMost, mins), budget)
  }

  lemma {:induction false} AffordablePrefix(t: seq<int>, budget: int)
    requires Positive(t) && budget >= 0
    ensures Affordable(t, budget) <= |t| && Sum(t[..Affordable(t, budget)]) <= budget
    ensures forall c :: Affordable(t, budget) < c <= |t| ==> Sum(t[..c]) > budget
  {
    if t != [] {
      if t[0] <= budget {
        AffordablePrefix(t[1..], budget - t[0]);
        var m := Affordable(t[1..], budget - t[0]);
        assert t[..m + 1] == [t[0]] + t[1..][..m];
        forall c | m + 1 < c <= |t| ensures Sum(t[..c]) > budget {
          assert t[..c] == [t[0]] + t[1..][..c - 1];
        }
      } else {
        forall c | 0 < c <= |t| ensures Sum(t[..c]) > budget {
          assert t[..c] == [t[0]] + t[1..c];
          SumNonNegative(t[1..c]);
        }
      }
    }
  }

  lemma SortPositive(mins: seq<int>)
    requires Positive(mins)
    ensures Positive(Sort(AtMost, mins))
  {
    MultisetMembers(mins, Sort(AtMost, mins));
    forall i | 0 <= i < |mins| ensures Sort(AtMost, mins)[i] >= 1 {
      assert Sort(AtMost, mins)[i] in mins;
    }
  }

  /** As many of the smallest minimums as fit are the most waiters that any feasible choice can start. */
  lemma CheapestFirstIsMaximum(mins: seq<int>, budget: int)
    requires Positive(mins) && budget >= 0
    ensures forall m :: Feasible(mins, budget, m) ==> Count(m) <= CheapestFirst(mins, budget)
    ensures exists m :: Feasible(mins, budget, m) && Count(m) == CheapestFirst(mins, budget)
  {
    SortPositive(mins);
    AffordablePrefix(Sort(AtMost, mins), budget);
    forall m | Feasible(mins, budget, m) ensures Count(m) <= CheapestFirst(mins, budget) {
      CheapestIsLeast(mins, m);
    }
    var m := CheapestIsChosen(mins, CheapestFirst(mins, budget));
    assert Feasible(mins, budget, m);
  }

  /** No feasible choice starts more than `n` waiters. */
  ghost predicate StartsMost(mins: seq<int>, budget: int, n: nat) {
    forall m :: Feasible(mins, budget, m) ==> Count(m) <= n
  }

  // ---- Backfilling ----------------------------------------------------------------------------

  /** Going through the queue, each waiter that fits leaves room for as many others as any choice
      would start besides one. */
  predicate NeverCrowdsOut(mins: seq<int>, budget: int) {
    mins == [] ||
    if mins[0] <= budget
    then CheapestFirst(mins, budget) == 1 + CheapestFirst(mins[1..], budget - mins[0])
         && NeverCrowdsOut(mins[1..], budget - mins[0])
    else NeverCrowdsOut(mins[1..], budget)
  }

  /** Starting the head and then the most of the others is one of the choices. */
  lemma TakingHead(mins: seq<int>, budget: int)
    requires Positive(mins) && mins != [] && mins[0] <= budget
    ensures CheapestFirst(mins, budget) >= 1 + CheapestFirst(mins[1..], budget - mins[0])
  {
    CheapestFirstIsMaximum(mins, budget);
    CheapestFirstIsMaximum(mins[1..], budget - mins[0]);
    var m :| Feasible(mins[1..], budget - mins[0], m) && Count(m) == CheapestFirst(mins[1..], budget - mins[0]);
    HeadTaken(mins, m);
    assert Feasible(mins, budget, [true] + m);
  }

  /** A head that does not fit is in no feasible choice. */
  lemma SkippingHead(mins: seq<int>, budget: int)
    requires Positive(mins) && mins != [] && mins[0] > budget >= 0
    ensures CheapestFirst(mins, budget) == CheapestFirst(mins[1..], budget)
  {
    CheapestFirstIsMaximum(mins, budget);
    CheapestFirstIsMaximum(mins[1..], budget);
    var best :| Feasible(mins, budget, best) && Count(best) == CheapestFirst(mins, budget);
    PickFacts(mins[1..], best[1..]);
    assert !best[0] && Feasible(mins[1..], budget, best[1..]);
    var rest :| Feasible(mins[1..], budget, rest) && Count(rest) == CheapestFirst(mins[1..], budget);
    HeadSkipped(mins, rest);
    assert Feasible(mins, budget, [false] + rest);
  }

  lemma {:induction false} BackfillCount(mins: seq<int>, budget: int)
    requires Positive(mins) && budget >= 0
    ensures Count(Select(mins, budget, false)) <= CheapestFirst(mins, budget)
    ensures Count(Select(mins, budget, false)) == CheapestFirst(mins, budget) <==> NeverCrowdsOut(mins, budget)
  {
    if mins != [] {
      if mins[0] <= budget {
        BackfillCount(mins[1..], budget - mins[0]);
        TakingHead(mins, budget);
      } else {
        BackfillCount(mins[1..], budget);
        SkippingHead(mins, budget);
      }
    }
  }

  // ---- Strict order ---------------------------------------------------------------------------

  /** The waiters ahead of the first one that does not fit are as many as fit at all: one more of the
      cheapest would already exceed the budget. */
  predicate PrefixIsCheapest(mins: seq<int>, budget: int)
    requires Affordable(mins, budget) <= |mins|
  {
    var n := Affordable(mins, budget);
    n == |mins| || Sum(Sort(AtMost, mins)[..n + 1]) > budget
  }

  lemma {:induction false} NoneStarts(n: nat)
    ensures Count(seq(n, _ => false)) == 0
  {
    if n > 0 {
      NoneStarts(n - 1);
      assert seq(n, _ => false)[1..] == seq(n - 1, _ => false);
    }
  }

  lemma {:induction false} StrictCount(mins: seq<int>, budget: int)
    ensures Count(Select(mins, budget, true)) == Affordable(mins, budget) <= |mins|
  {
    if mins != [] {
      if mins[0] <= budget {
        StrictCount(mins[1..], budget - mins[0]);
      } else {
        NoneStarts(|mins|);
      }
    }
  }

  lemma StrictCountExactly(mins: seq<int>, budget: int)
    requires Positive(mins) && budget >= 0
    ensures Count(Select(mins, budget, true)) == Affordable(mins, budget) <= |mins|
    ensures Count(Select(mins, budget, true)) <= CheapestFirst(mins, budget)
    ensures Count(Select(mins, budget, true)) == CheapestFirst(mins, budget) <==> PrefixIsCheapest(mins, budget)
  {
    var n, t := Affordable(mins, budget), Sort(AtMost, mins);
    StrictCount(mins, budget);
    AffordablePrefix(mins, budget);
    SortPositive(mins);
    AffordablePrefix(t, budget);
    PrefixChoice(mins, n);
    CheapestFirstIsMaximum(mins, budget);
    if n < |mins| && Affordable(t, budget) > n {
      PrefixGrows(t, n + 1, Affordable(t, budget));
    }
  }

  lemma PrefixGrows(t: seq<int>, a: nat, b: nat)
    requires Positive(t) && a <= b <= |t|
    ensures Sum(t[..a]) <= Sum(t[..b])
  {
    assert t[..b] == t[..a] + t[a..b];
    SumConcat(t[..a], t[a..b]);
    SumNonNegative(t[a..b]);
  }

  /** The first `n` waiters are a choice. */
  lemma {:induction false} PrefixChoice(mins: seq<int>, n: nat)
    requires n <= |mins|
    ensures exists m :: |m| == |mins| && Pick(mins, m) == mins[..n] && Count(m) == n
  {
    if n == 0 {
      PickNone(mins);
      NoneStarts(|mins|);
      assert Pick(mins, seq(|mins|, _ => false)) == mins[..0];
    } else {
      PrefixChoice(mins[1..], n - 1);
      var m :| |m| == |mins[1..]| && Pick(mins[1..], m) == mins[1..][..n - 1] && Count(m) == n - 1;
      HeadTaken(mins, m);
      assert mins[..n] == [mins[0]] + mins[1..][..n - 1];
      assert Pick(mins, [true] + m) == mins[..n];
    }
  }

  // ---- When the documented promise holds --------------------------------------------------------

  /** What a caller can check of the queue's minimums and the free count before asking for a plan. */
  ghost predicate PromiseHolds(mins: seq<int>, budget: int, strict: bool) {
    if strict then Affordable(mins, budget) <= |mins| && PrefixIsCheapest(mins, budget)
    else NeverCrowdsOut(mins, budget)
  }

  /** The selection starts as many feasible jobs as possible exactly when, backfilling, no waiter that
      is taken crowds out others, and, in strict mode, no cheaper choice is longer than the prefix. */
  lemma StartsMostExactly(mins: seq<int>, budget: int, strict: bool)
    requires Positive(mins) && budget >= 0
    ensures StartsMost(mins, budget, Count(Select(mins, budget, strict))) <==> PromiseHolds(mins, budget, strict)
  {
    CheapestFirstIsMaximum(mins, budget);
    if strict {
      StrictCountExactly(mins, budget);
    } else {
      BackfillCount(mins, budget);
    }
  }

  lemma {:induction false} PickCount<T>(q: seq<T>, mask: seq<bool>)
    requires |q| == |mask|
    ensures |Pick(q, mask)| == Count(mask)
  {
    if q != [] {
      PickCount(q[1..], mask[1..]);
    }
  }

  lemma PlanCount(inp: Input)
    requires Plan(inp).Ok? && Distinct(Ids(inp.waiting)) && !Alone(inp)
    ensures var mins := Mins(Queue(inp.waiting));
            Positive(mins) && |Plan(inp).value| == Count(Select(mins, |inp.free|, inp.strictFifo))
  {
    var q := Queue(inp.waiting);
    var mins := Mins(q);
    QueueFacts(inp.waiting);
    CapacityErrorNone(q, inp.total);
    forall i | 0 <= i < |mins| ensures mins[i] >= 1 {
      assert q[i] in q;
    }
    if inp.free == [] {
      StartsNone(mins, 0, inp.strictFifo);
    } else {
      PlanIsBatch(inp);
      PickCount(q, Select(mins, |inp.free|, inp.strictFifo));
    }
  }

  lemma {:induction false} StartsNone(mins: seq<int>, budget: int, strict: bool)
    requires forall i :: 0 <= i < |mins| ==> mins[i] > budget
    ensures Count(Select(mins, budget, strict)) == 0
  {
    if mins != [] {
      NoneStarts(|mins|);
      if !strict {
        StartsNone(mins[1..], budget, strict);
      }
    }
  }

  /** The plan starts as many jobs as any choice of waiters could exactly under that condition, in
      either mode; only the lone waiter on an idle host is treated apart. */
  lemma PlanStartsMostExactly(inp: Input)
    requires Plan(inp).Ok? && Distinct(Ids(inp.waiting)) && !Alone(inp)
    ensures var mins := Mins(Queue(inp.waiting));
            StartsMost(mins, |inp.free|, |Plan(inp).value|) <==> PromiseHolds(mins, |inp.free|, inp.strictFifo)
  {
    PlanCount(inp);
    StartsMostExactly(Mins(Queue(inp.waiting)), |inp.free|, inp.strictFifo);
  }

  /** Minimums that do not decrease along the queue are enough for the batch to start the most jobs,
      in strict and in backfill mode alike. */
  lemma StartsMostWhenAscending(mins: seq<int>, budget: int, strict: bool)
    requires Positive(mins) && budget >= 0 && SortedBy(AtMost, mins)
    ensures StartsMost(mins, budget, Count(Select(mins, budget, strict)))
  {
    SortOfSorted(AtMost, mins);
    CheapestFirstIsMaximum(mins, budget);
    AscendingModesAgree(mins, budget);
    StrictCount(mins, budget);
  }

  lemma {:induction false} AscendingModesAgree(t: seq<int>, budget: int)
    requires SortedBy(AtMost, t)
    ensures Count(Select(t, budget, true)) == Count(Select(t, budget, false))
  {
    if t != [] {
      if t[0] <= budget {
        AscendingModesAgree(t[1..], budget - t[0]);
      } else {
        forall i | 0 <= i < |t| ensures t[i] > budget {
          assert i == 0 || AtMost(t[0], t[i]);
        }
        StartsNone(t, budget, true);
        StartsNone(t, budget, false);
      }
    }
  }

  // ---- Where it fails -------------------------------------------------------------------------

  const BACKFILL_FAILS := Input([1, 2],
                                [Request(1, 2, None, 0, 1), Request(2, 1, None, 0, 2), Request(3, 1, None, 0, 3)],
                                2, 0, 0, 1, false)

  const STRICT_FAILS := Input([1, 2], [Request(1, 3, None, 0, 1), Request(2, 1, None, 0, 2)], 4, 1, 0, 1, true)

  /** The number of launches for waiters that are listed in queue order. */
  lemma ListedInOrder(inp: Input, mins: seq<int>)
    requires SortedBy(Precedes, inp.waiting) && Distinct(Ids(inp.waiting)) && Mins(inp.waiting) == mins
    requires Acceptable(inp) && !Alone(inp)
    ensures Plan(inp).Ok? && Mins(Queue(inp.waiting)) == mins
    ensures |Plan(inp).value| == Count(Select(mins, |inp.free|, inp.strictFifo))
  {
    SortOfSorted(Precedes, inp.waiting);
    PlanAcceptedExactly(inp);
    PlanCount(inp);
  }

  /** Two free GPUs and waiters that need 2, 1 and 1: backfilling starts one job where two would fit. */
  lemma BackfillCanStartFewer()
    ensures Plan(BACKFILL_FAILS).Ok? && !Alone(BACKFILL_FAILS) && |Plan(BACKFILL_FAILS).value| == 1
    ensures Mins(Queue(BACKFILL_FAILS.waiting)) == [2, 1, 1]
    ensures Feasible([2, 1, 1], 2, [false, true, true]) && Count([false, true, true]) == 2
  {
    ListedInOrder(BACKFILL_FAILS, [2, 1, 1]);
    TwoOneOne();
  }

  lemma TwoOneOne()
    ensures Count(Select([2, 1, 1], 2, false)) == 1
    ensures Feasible([2, 1, 1], 2, [false, true, true]) && Count([false, true, true]) == 2
  {
    assert Select([2, 1, 1], 2, false) == [true, false, false] by {
      assert [2, 1, 1][1..] == [1, 1] && [1, 1][1..] == [1];
      assert Select([1], 0, false) == [false];
      assert Select([1, 1], 0, false) == [false, false];
    }
    assert [true, false, false][1..] == [false, false];
    assert [false, true, true][1..] == [true, true] && [2, 1, 1][1..] == [1, 1];
    assert Pick([1, 1], [true, true]) == [1, 1];
    assert Sum([1, 1]) == 2;
  }

  /** Two free GPUs and waiters that need 3 and 1: strict order starts nothing where one job would fit. */
  lemma StrictCanStartFewer()
    ensures Plan(STRICT_FAILS).Ok? && !Alone(STRICT_FAILS) && |Plan(STRICT_FAILS).value| == 0
    ensures Mins(Queue(STRICT_FAILS.waiting)) == [3, 1]
    ensures Feasible([3, 1], 2, [false, true]) && Count([false, true]) == 1
  {
    ListedInOrder(STRICT_FAILS, [3, 1]);
    ThreeOne();
  }

  lemma ThreeOne()
    ensures Count(Select([3, 1], 2, true)) == 0
    ensures Feasible([3, 1], 2, [false, true]) && Count([false, true]) == 1
  {
    StrictCount([3, 1], 2);
    assert [false, true][1..] == [true] && [3, 1][1..] == [1];
    assert Pick([1], [true]) == [1] && Sum([1]) == 1;
  }
}

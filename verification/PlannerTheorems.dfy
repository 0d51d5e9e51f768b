/** What the planner's decisions mean: which waiters start, how many GPUs each receives,
    and when the plan is refused. */
module PlannerTheorems {
  import opened Prelude
  import opened Sorting
  import opened Planner

  // ---- Selection against every other choice of waiters --------------------------------------

  function Count(mask: seq<bool>): nat {
    if mask == [] then 0 else (if mask[0] then 1 else 0) + Count(mask[1..])
  }

  ghost predicate Positive(mins: seq<int>) {
    forall i :: 0 <= i < |mins| ==> mins[i] >= 1
  }

  /** `mask` names waiters whose minimums fit into `budget` together. */
  ghost predicate Feasible(mins: seq<int>, budget: int, mask: seq<bool>) {
    |mask| == |mins| && Sum(Pick(mins, mask)) <= budget
  }

  /** At the first waiter on which the masks differ, `b` starts it and `a` does not. */
  ghost predicate LexAtMost(a: seq<bool>, b: seq<bool>)
    requires |a| == |b|
  {
    a == [] || (!a[0] && b[0]) || (a[0] == b[0] && LexAtMost(a[1..], b[1..]))
  }

  lemma {:induction false} PickFacts(mins: seq<int>, mask: seq<bool>)
    requires |mask| == |mins| && Positive(mins)
    ensures Sum(Pick(mins, mask)) >= 0
    ensures |Pick(mins, mask)| == Count(mask)
  {
    if mins != [] {
      PickFacts(mins[1..], mask[1..]);
    }
  }

  /** The backfilling selection is the lexicographically greatest feasible choice in queue order. */
  lemma {:induction false} SelectLexGreatest(mins: seq<int>, budget: int, mask: seq<bool>)
    requires Positive(mins) && budget >= 0 && Feasible(mins, budget, mask)
    ensures Feasible(mins, budget, Select(mins, budget, false))
    ensures LexAtMost(mask, Select(mins, budget, false))
  {
    if mins != [] {
      PickFacts(mins[1..], mask[1..]);
      var none := seq(|mins[1..]|, _ => false);
      PickNone(mins[1..]);
      if mins[0] <= budget {
        SelectLexGreatest(mins[1..], budget - mins[0], if mask[0] then mask[1..] else none);
      } else {
        SelectLexGreatest(mins[1..], budget, mask[1..]);
      }
    }
  }

  lemma {:induction false} LexAntisymmetric(a: seq<bool>, b: seq<bool>)
    requires |a| == |b| && LexAtMost(a, b) && LexAtMost(b, a)
    ensures a == b
  {
    if a != [] {
      LexAntisymmetric(a[1..], b[1..]);
      assert a == [a[0]] + a[1..] && b == [b[0]] + b[1..];
    }
  }

  /** Being feasible and lexicographically greatest pins the selection down completely. */
  lemma SelectCharacterised(mins: seq<int>, budget: int, mask: seq<bool>)
    requires Positive(mins) && budget >= 0 && Feasible(mins, budget, mask)
    ensures mask == Select(mins, budget, false)
            <==> forall m :: Feasible(mins, budget, m) ==> LexAtMost(m, mask)
  {
    forall m | Feasible(mins, budget, m) ensures LexAtMost(m, Select(mins, budget, false)) {
      SelectLexGreatest(mins, budget, m);
    }
    SelectLexGreatest(mins, budget, mask);
    if forall m :: Feasible(mins, budget, m) ==> LexAtMost(m, mask) {
      assert LexAtMost(Select(mins, budget, false), mask);
      LexAntisymmetric(mask, Select(mins, budget, false));
    }
  }

  /** No waiter left behind would still fit. */
  lemma {:induction false} NoWaiterFitsLeftover(mins: seq<int>, budget: int, i: nat)
    requires Positive(mins) && budget >= 0 && i < |mins|
    requires !Select(mins, budget, false)[i]
    ensures mins[i] > budget - Sum(Pick(mins, Select(mins, budget, false)))
  {
    if mins[0] <= budget {
      NoWaiterFitsLeftover(mins[1..], budget - mins[0], i - 1);
    } else {
      PickFacts(mins[1..], Select(mins[1..], budget, false));
      if i > 0 {
        NoWaiterFitsLeftover(mins[1..], budget, i - 1);
      }
    }
  }

  /** Strict mode starts exactly the longest run of waiters from the head of the queue that fits. */
  lemma {:induction false} StrictIsLongestPrefix(mins: seq<int>, budget: int) returns (n: nat)
    requires Positive(mins) && budget >= 0
    ensures n <= |mins|
    ensures forall i :: 0 <= i < |mins| ==> (Select(mins, budget, true)[i] <==> i < n)
    ensures Sum(mins[..n]) <= budget
    ensures n < |mins| ==> Sum(mins[..n + 1]) > budget
  {
    if mins == [] {
      n := 0;
    } else if mins[0] <= budget {
      var m := StrictIsLongestPrefix(mins[1..], budget - mins[0]);
      n := m + 1;
      assert mins[..n] == [mins[0]] + mins[1..][..m];
      if n < |mins| {
        assert mins[..n + 1] == [mins[0]] + mins[1..][..m + 1];
      }
    } else {
      n := 0;
      assert mins[..1] == [mins[0]];
    }
  }

  /** Strict mode starts a prefix of what backfilling starts. */
  lemma {:induction false} StrictIsPrefixOfBackfill(q: seq<Request>, budget: int)
    ensures Selected(q, budget, true) <= Selected(q, budget, false)
  {
    if q != [] {
      SelectedStep(q, budget, true);
      SelectedStep(q, budget, false);
      if q[0].minGpus <= budget {
        StrictIsPrefixOfBackfill(q[1..], budget - q[0].minGpus);
      }
    }
  }

  // ---- Shares and slices ---------------------------------------------------------------------

  /** A later request outgrows an earlier one only when the earlier one is full, and by at most one round otherwise. */
  lemma SharesFair(room: seq<int>, k: int, p: int, i: int, j: int)
    requires NonNegative(room) && 0 <= k && 0 <= p <= |room| && 0 <= i < j < |room|
    ensures var e := Shares(room, k, p);
            && (e[i] < e[j] ==> e[i] == room[i])
            && (e[j] < room[j] ==> e[i] <= e[j] + 1)
  {
  }

  /** Round-robin growth in closed form: whole rounds plus part of one, spending every spare
      unit unless all room is used. */
  lemma ExtrasClosedForm(room: seq<int>, spare: int) returns (k: int, p: int)
    requires NonNegative(room) && spare >= 0
    ensures 0 <= k && 0 <= p <= |room| && Extras(room, spare) == Shares(room, k, p)
    ensures Sum(Extras(room, spare)) == Min(spare, Sum(room))
    ensures Sum(Extras(room, spare)) < spare ==> Extras(room, spare) == room
  {
    var level := Level(room, spare, 0, 0);
    k, p := level.0, level.1;
    ExtrasSpend(room, spare);
    SumMonotone(Shares(room, k, p), room);
  }

  lemma {:induction false} SlicesFacts(ids: seq<TaskId>, grants: seq<int>, free: seq<GpuId>)
    requires |ids| == |grants| && NonNegative(grants) && Sum(grants) <= |free|
    ensures Sum(grants) >= 0 && Flatten(Slices(ids, grants, free)) == free[..Sum(grants)]
    ensures forall i :: 0 <= i < |ids| ==> Slices(ids, grants, free)[i].id == ids[i]
                                           && |Slices(ids, grants, free)[i].gpus| == grants[i]
  {
    if ids != [] {
      SumNonNegative(grants);
      assert NonNegative(grants[1..]);
      SumNonNegative(grants[1..]);
      SlicesFacts(ids[1..], grants[1..], free[grants[0]..]);
      assert free[..Sum(grants)] == free[..grants[0]] + free[grants[0]..][..Sum(grants[1..])];
    }
  }

  // ---- The plan as a whole ------------------------------------------------------------------

  /** What a caller can check about a request before asking for a plan. */
  predicate WellSized(r: Request, total: int) {
    1 <= r.minGpus && r.minGpus <= if r.maxGpus.None? then total else r.maxGpus.value
  }

  predicate Acceptable(inp: Input) {
    && Distinct(inp.free) && 1 <= inp.total && |inp.free| <= inp.total
    && 0 <= inp.activeJobs && 0 <= inp.externalBusy && 0 <= inp.reserve
    && forall r :: r in inp.waiting ==> WellSized(r, inp.total)
  }

  /** A plan is refused exactly on unacceptable input; one unbounded waiter whose minimum exceeds
      the host is enough to refuse everybody. */
  lemma PlanAcceptedExactly(inp: Input)
    requires Distinct(Ids(inp.waiting))
    ensures Plan(inp).Ok? <==> Acceptable(inp)
  {
    QueueFacts(inp.waiting);
    CapacityErrorNone(Queue(inp.waiting), inp.total);
    if inp.total >= 1 {
      forall r ensures Capacity(r, inp.total).Ok? <==> WellSized(r, inp.total) {
      }
    }
  }

  /** On an idle host a lone waiter starts exactly when its minimum fits both what is free and
      the budget left after the reserve. */
  lemma SoloStartsExactly(inp: Input)
    requires Plan(inp).Ok? && inp.free != []
    requires inp.activeJobs == 0 && inp.externalBusy == 0 && |inp.waiting| == 1
    ensures var r := inp.waiting[0];
            var budget := if inp.reserve < inp.total then inp.total - inp.reserve else 1;
            var grant := Min(Min(|inp.free|, if r.maxGpus.None? then inp.total else r.maxGpus.value), budget);
            Plan(inp).value == if r.minGpus <= Min(|inp.free|, budget) then [Allocation(r.id, inp.free[..grant])]
                               else []
  {
    var r := inp.waiting[0];
    assert inp.waiting == [r];
    assert Queue(inp.waiting) == [r] by {
      assert Sort(Precedes, inp.waiting[1..]) == [];
    }
    CapacityErrorNone([r], inp.total);
    assert r in [r];
  }

  ghost predicate SharesOut(sel: seq<Request>, total: int, k: int, p: int, allocs: seq<Allocation>)
    requires forall r :: r in sel ==> Capacity(r, total).Ok?
  {
    && |allocs| == |sel|
    && forall i :: 0 <= i < |sel| ==>
         && allocs[i].id == sel[i].id
         && |allocs[i].gpus| == sel[i].minGpus
              + Min(Capacity(sel[i], total).value - sel[i].minGpus, k + if i < p then 1 else 0)
  }

  lemma RoomSharesOut(sel: seq<Request>, total: int, spare: int, k: int, p: int, allocs: seq<Allocation>)
    requires forall r :: r in sel ==> Capacity(r, total).Ok?
    requires Extras(Room(sel, total), spare) == Shares(Room(sel, total), k, p)
    requires |allocs| == |sel|
    requires forall i :: 0 <= i < |sel| ==> allocs[i].id == Ids(sel)[i]
                                            && |allocs[i].gpus| == Grants(sel, total, spare)[i]
    ensures SharesOut(sel, total, k, p, allocs)
  {
    forall i | 0 <= i < |sel|
      ensures |allocs[i].gpus| == sel[i].minGpus
                + Min(Capacity(sel[i], total).value - sel[i].minGpus, k + if i < p then 1 else 0)
    {
      assert Shares(Room(sel, total), k, p)[i] == Min(Room(sel, total)[i], k + if i < p then 1 else 0);
    }
  }

  lemma PlanIsBatch(inp: Input)
    requires Plan(inp).Ok? && Distinct(Ids(inp.waiting)) && !Alone(inp) && inp.free != []
    ensures var q := Queue(inp.waiting);
            && Distinct(Ids(q)) && |inp.free| <= inp.total && CapacityError(q, inp.total).None?
            && Plan(inp).value == Batch(q, inp.free, inp.total, inp.strictFifo)
  {
    QueueFacts(inp.waiting);
    if Queue(inp.waiting) == [] {
      assert Selected([], |inp.free|, inp.strictFifo) == [];
    }
  }

  ghost predicate BatchShape(inp: Input, sel: seq<Request>, k: int, p: int, allocs: seq<Allocation>) {
    && 0 <= k && 0 <= p <= |sel|
    && (forall r :: r in sel ==> Capacity(r, inp.total).Ok?)
    && SharesOut(sel, inp.total, k, p, allocs)
    && Flatten(allocs) <= inp.free
    && (|Flatten(allocs)| < |inp.free| ==>
         forall i :: 0 <= i < |sel| ==> |allocs[i].gpus| == Capacity(sel[i], inp.total).value)
  }

  /** A batch in closed form: the selected waiters receive consecutive runs of the free list, each
      its minimum plus `k` rounds and, for the first `p`, one unit more, capped at capacity; a GPU
      stays free only if every started waiter is at capacity. */
  lemma BatchClosedForm(inp: Input) returns (k: int, p: int)
    requires Plan(inp).Ok? && Distinct(Ids(inp.waiting)) && !Alone(inp) && inp.free != []
    ensures BatchShape(inp, Selected(Queue(inp.waiting), |inp.free|, inp.strictFifo), k, p, Plan(inp).value)
  {
    var sel := Selected(Queue(inp.waiting), |inp.free|, inp.strictFifo);
    PlanIsBatch(inp);
    BatchReady(Queue(inp.waiting), inp.free, inp.total, inp.strictFifo);
    k, p := LaunchShape(inp, sel);
  }

  lemma LaunchShape(inp: Input, sel: seq<Request>) returns (k: int, p: int)
    requires Sum(Mins(sel)) <= |inp.free|
    requires forall r :: r in sel ==> Capacity(r, inp.total).Ok? && 1 <= r.minGpus <= inp.total
    ensures BatchShape(inp, sel, k, p, Launches(sel, inp.free, inp.total))
  {
    var spare := |inp.free| - Sum(Mins(sel));
    var grants := Grants(sel, inp.total, spare);
    GrantsSum(sel, inp.total, spare);
    k, p := ExtrasClosedForm(Room(sel, inp.total), spare);
    SlicesFacts(Ids(sel), grants, inp.free);
    RoomSharesOut(sel, inp.total, spare, k, p, Slices(Ids(sel), grants, inp.free));
    FullAtCapacity(sel, inp.total, spare);
  }

  lemma FullAtCapacity(sel: seq<Request>, total: int, spare: int)
    requires forall r :: r in sel ==> Capacity(r, total).Ok?
    ensures Extras(Room(sel, total), spare) == Room(sel, total) ==>
              forall i :: 0 <= i < |sel| ==> Grants(sel, total, spare)[i] == Capacity(sel[i], total).value
  {
  }

  lemma AloneInBatch(inp: Input)
    requires Plan(inp).Ok? && |inp.waiting| == 1 && !Alone(inp) && inp.free != []
    ensures var r := inp.waiting[0];
            var grant := Min(|inp.free|, if r.maxGpus.None? then inp.total else r.maxGpus.value);
            Plan(inp).value == if r.minGpus <= |inp.free| then [Allocation(r.id, inp.free[..grant])] else []
  {
    var r, allocs := inp.waiting[0], Plan(inp).value;
    assert inp.waiting == [r] && Queue(inp.waiting) == [r] by {
      assert Sort(Precedes, inp.waiting[1..]) == [];
    }
    SelectedStep([r], |inp.free|, inp.strictFifo);
    assert [r][1..] == [] && forall n :: Selected([], n, inp.strictFifo) == [];
    PlanIsBatch(inp);
    var k, p := BatchClosedForm(inp);
    if r.minGpus <= |inp.free| {
      assert allocs == [allocs[0]] && Flatten(allocs) == allocs[0].gpus + Flatten([]);
      assert r in [r];
      CapacityErrorNone([r], inp.total);
      ServesLarger(r, k, p, 0, inp.total, |allocs[0].gpus|);
      assert |allocs[0].gpus| == Min(|inp.free|, Capacity(r, inp.total).value);
      assert allocs[0].gpus == inp.free[..|allocs[0].gpus|];
    } else {
      assert Selected([r], |inp.free|, inp.strictFifo) == [];
    }
  }

  /** A lone waiter gets as many GPUs as are free, up to its own maximum and, only on an idle host, up to
      what the reserve leaves of the host; with less than its minimum it does not start. */
  lemma LoneWaiterGets(inp: Input)
    requires Plan(inp).Ok? && |inp.waiting| == 1
    ensures var r := inp.waiting[0];
            var most := Min(|inp.free|, if r.maxGpus.None? then inp.total else r.maxGpus.value);
            var left := if inp.reserve < inp.total then inp.total - inp.reserve else 1;
            var grant := if inp.activeJobs == 0 && inp.externalBusy == 0 then Min(most, left) else most;
            Plan(inp).value == if r.minGpus <= grant then [Allocation(r.id, inp.free[..grant])] else []
  {
    var r := inp.waiting[0];
    assert inp.waiting == [r] && Queue(inp.waiting) == [r] by {
      assert Sort(Precedes, inp.waiting[1..]) == [];
    }
    CapacityErrorNone([r], inp.total);
    assert r in [r];
    if inp.free != [] {
      if Alone(inp) {
        SoloStartsExactly(inp);
      } else {
        AloneInBatch(inp);
      }
    }
  }

  /** Every launch decision names a waiting request once and gives it between its minimum and its
      capacity; together the decisions cut a prefix of the free list. */
  ghost predicate SoundPlan(inp: Input, allocs: seq<Allocation>) {
    && Flatten(allocs) <= inp.free
    && (forall i, j :: 0 <= i < j < |allocs| ==> allocs[i].id != allocs[j].id)
    && forall a :: a in allocs ==> exists r :: Serves(inp, a, r)
  }

  ghost predicate Serves(inp: Input, a: Allocation, r: Request) {
    && r in inp.waiting && r.id == a.id
    && Capacity(r, inp.total).Ok?
    && 1 <= r.minGpus <= |a.gpus| <= Capacity(r, inp.total).value
  }

  lemma ServesLarger(r: Request, k: int, p: int, i: int, total: int, n: int)
    requires Capacity(r, total).Ok? && 1 <= r.minGpus <= total && 0 <= k
    requires n == r.minGpus + Min(Capacity(r, total).value - r.minGpus, k + if i < p then 1 else 0)
    ensures r.minGpus <= n <= Capacity(r, total).value
  {
  }

  lemma BatchSound(inp: Input)
    requires Plan(inp).Ok? && Distinct(Ids(inp.waiting)) && !Alone(inp) && inp.free != []
    ensures SoundPlan(inp, Plan(inp).value)
  {
    var q := Queue(inp.waiting);
    var sel := Selected(q, |inp.free|, inp.strictFifo);
    var allocs := Plan(inp).value;
    QueueFacts(inp.waiting);
    PlanIsBatch(inp);
    BatchReady(q, inp.free, inp.total, inp.strictFifo);
    var k, p := BatchClosedForm(inp);
    forall i, j | 0 <= i < j < |allocs| ensures allocs[i].id != allocs[j].id {
      assert Ids(sel)[i] != Ids(sel)[j];
    }
    forall a | a in allocs ensures exists r :: Serves(inp, a, r) {
      var i :| 0 <= i < |allocs| && allocs[i] == a;
      ServesLarger(sel[i], k, p, i, inp.total, |a.gpus|);
      assert sel[i] in sel && sel[i] in q;
      assert Serves(inp, a, sel[i]);
    }
  }

  lemma SoloSound(inp: Input)
    requires Plan(inp).Ok? && Alone(inp) && inp.free != []
    ensures SoundPlan(inp, Plan(inp).value)
  {
    var r := inp.waiting[0];
    SoloStartsExactly(inp);
    assert inp.waiting == [r] && Queue(inp.waiting) == [r] by {
      assert Sort(Precedes, inp.waiting[1..]) == [];
    }
    CapacityErrorNone([r], inp.total);
    assert r in [r];
    var allocs := Plan(inp).value;
    if allocs != [] {
      assert Flatten(allocs) == allocs[0].gpus + Flatten([]);
      assert Serves(inp, allocs[0], r);
    }
  }

  lemma PlanSound(inp: Input)
    requires Plan(inp).Ok? && Distinct(Ids(inp.waiting))
    ensures SoundPlan(inp, Plan(inp).value)
  {
    if inp.free == [] {
    } else if Alone(inp) {
      SoloSound(inp);
    } else {
      BatchSound(inp);
    }
  }

  /** The order in which the waiting requests are listed does not matter. */
  lemma PlanIgnoresListing(a: Input, b: Input)
    requires b == a.(waiting := b.waiting)
    requires multiset(a.waiting) == multiset(b.waiting) && Distinct(Ids(a.waiting))
    ensures Plan(a) == Plan(b)
  {
    QueueIgnoresListing(a.waiting, b.waiting);
    assert InputError(a) == InputError(b) && Alone(a) == Alone(b);
  }

  lemma QueueIgnoresListing(a: seq<Request>, b: seq<Request>)
    requires multiset(a) == multiset(b) && Distinct(Ids(a))
    ensures Queue(a) == Queue(b) && |a| == |b|
  {
    DistinctIdsSeparate(a);
    SortCanonical(Precedes, a, b);
    MultisetMembers(a, b);
  }
}

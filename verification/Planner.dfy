/** The allocation planner's decisions: queue order, solo reserve, greedy selection by minimum,
    round-robin growth up to capacity, and slicing of concrete GPU ids.

    Request and GPU identifiers are integers; only their equality and order matter. */
module Planner {
  import opened Prelude
  import opened Sorting

  type TaskId = int
  type GpuId = int

  datatype Request = Request(id: TaskId, minGpus: int, maxGpus: Option<int>, priority: int, createdAt: int)

  datatype Allocation = Allocation(id: TaskId, gpus: seq<GpuId>)

  datatype PlanError =
    | DuplicateFreeGpu | NoGpus | MoreFreeThanTotal | NegativeCount
    | MinimumBelowOne | MaximumBelowMinimum

  datatype Input = Input(free: seq<GpuId>, waiting: seq<Request>, total: int,
                         activeJobs: int, externalBusy: int, reserve: int, strictFifo: bool)

  function Ids(q: seq<Request>): seq<TaskId> {
    seq(|q|, i requires 0 <= i < |q| => q[i].id)
  }

  function Capacity(r: Request, total: int): Result<int, PlanError> {
    var maximum := if r.maxGpus.None? then total else r.maxGpus.value;
    if r.minGpus < 1 then Err(MinimumBelowOne)
    else if maximum < r.minGpus then Err(MaximumBelowMinimum)
    else Ok(Min(maximum, total))
  }

  // ---- Queue order ------------------------------------------------------------------------

  predicate Precedes(a: Request, b: Request) {
    || a.priority > b.priority
    || (a.priority == b.priority && a.createdAt < b.createdAt)
    || (a.priority == b.priority && a.createdAt == b.createdAt && a.id <= b.id)
  }

  function Queue(waiting: seq<Request>): seq<Request> {
    Sort(Precedes, waiting)
  }

  lemma DistinctIdsSeparate(waiting: seq<Request>)
    requires Distinct(Ids(waiting))
    ensures Separates(Precedes, waiting)
  {
    forall x, y | x in waiting && y in waiting && Precedes(x, y) && Precedes(y, x) ensures x == y {
      DistinctIdsSameRequest(waiting, x, y);
    }
  }

  lemma DistinctIdsPermute(a: seq<Request>, b: seq<Request>)
    requires multiset(a) == multiset(b) && Distinct(Ids(a))
    ensures Distinct(Ids(b))
  {
    MultisetMembers(a, b);
    forall i, j | 0 <= i < j < |b| ensures Ids(b)[i] != Ids(b)[j] {
      if b[i].id == b[j].id {
        assert b[i] in a && b[j] in a;
        DistinctIdsSameRequest(a, b[i], b[j]);
        TwiceIn(b, i, j);
        OnceIn(a, b[i]);
        assert false;
      }
    }
  }

  lemma DistinctIdsSameRequest(a: seq<Request>, x: Request, y: Request)
    requires Distinct(Ids(a)) && x in a && y in a && x.id == y.id
    ensures x == y
  {
    var m :| 0 <= m < |a| && a[m] == x;
    var n :| 0 <= n < |a| && a[n] == y;
    assert Ids(a)[m] == Ids(a)[n];
  }

  lemma TwiceIn<T>(s: seq<T>, i: nat, j: nat)
    requires i < j < |s| && s[i] == s[j]
    ensures multiset(s)[s[i]] >= 2
  {
    assert s == s[..j] + [s[j]] + s[j + 1..];
    assert s[i] in s[..j];
  }

  lemma {:induction false} OnceIn(s: seq<Request>, x: Request)
    requires Distinct(Ids(s))
    ensures multiset(s)[x] <= 1
  {
    if s != [] {
      assert s == [s[0]] + s[1..];
      TailDistinct(s);
      OnceIn(s[1..], x);
      assert s[0] !in s[1..];
    }
  }

  lemma QueueFacts(waiting: seq<Request>)
    requires Distinct(Ids(waiting))
    ensures Distinct(Ids(Queue(waiting)))
    ensures forall r :: r in Queue(waiting) <==> r in waiting
    ensures SortedBy(Precedes, Queue(waiting)) && |Queue(waiting)| == |waiting|
  {
    SortSorted(Precedes, waiting);
    MultisetMembers(waiting, Queue(waiting));
    DistinctIdsPermute(waiting, Queue(waiting));
  }

  // ---- Greedy selection by minimum --------------------------------------------------------

  function Mins(q: seq<Request>): seq<int> {
    seq(|q|, i requires 0 <= i < |q| => q[i].minGpus)
  }

  /** Which waiters start, in queue order, when `budget` GPUs are free. */
  function Select(mins: seq<int>, budget: int, strict: bool): (mask: seq<bool>)
    ensures |mask| == |mins|
  {
    if mins == [] then []
    else if mins[0] <= budget then [true] + Select(mins[1..], budget - mins[0], strict)
    else if strict then seq(|mins|, _ => false)
    else [false] + Select(mins[1..], budget, strict)
  }

  function Pick<T>(q: seq<T>, mask: seq<bool>): (r: seq<T>)
    requires |q| == |mask|
    ensures |r| <= |q|
    ensures forall x :: x in r ==> x in q
  {
    if q == [] then []
    else if mask[0] then [q[0]] + Pick(q[1..], mask[1..])
    else Pick(q[1..], mask[1..])
  }

  function Selected(q: seq<Request>, budget: int, strict: bool): seq<Request> {
    Pick(q, Select(Mins(q), budget, strict))
  }

  lemma MinsOfTail(q: seq<Request>)
    requires q != []
    ensures Mins(q)[1..] == Mins(q[1..]) && Ids(q)[1..] == Ids(q[1..])
  {
  }

  lemma {:induction false} PickNone<T>(q: seq<T>)
    ensures Pick(q, seq(|q|, _ => false)) == []
  {
    if q != [] {
      assert seq(|q|, _ => false)[1..] == seq(|q[1..]|, _ => false);
      PickNone(q[1..]);
    }
  }

  /** One iteration of the selection loop. */
  lemma SelectedStep(q: seq<Request>, budget: int, strict: bool)
    requires q != []
    ensures Selected(q, budget, strict)
            == if q[0].minGpus <= budget then [q[0]] + Selected(q[1..], budget - q[0].minGpus, strict)
               else if strict then []
               else Selected(q[1..], budget, strict)
  {
    MinsOfTail(q);
    if q[0].minGpus > budget && strict {
      PickNone(q);
    }
  }

  lemma {:induction false} SelectedFits(q: seq<Request>, budget: int, strict: bool)
    requires budget >= 0 && forall r :: r in q ==> r.minGpus >= 1
    ensures 0 <= Sum(Mins(Selected(q, budget, strict))) <= budget
    ensures Distinct(Ids(q)) ==> Distinct(Ids(Selected(q, budget, strict)))
    ensures forall r :: r in Selected(q, budget, strict) ==> r in q && r.minGpus <= budget
  {
    if q != [] {
      SelectedStep(q, budget, strict);
      assert forall r :: r in q[1..] ==> r in q;
      MinsOfTail(q);
      if q[0].minGpus <= budget {
        var rest := Selected(q[1..], budget - q[0].minGpus, strict);
        SelectedFits(q[1..], budget - q[0].minGpus, strict);
        MinsOfTail([q[0]] + rest);
        if Distinct(Ids(q)) {
          TailDistinct(q);
          assert Distinct(Ids([q[0]] + rest)) by {
            assert forall r :: r in rest ==> r in q[1..];
            forall i, j | 0 <= i < j <= |rest| ensures Ids([q[0]] + rest)[i] != Ids([q[0]] + rest)[j] {
              assert rest[j - 1] in q[1..];
              if i > 0 {
                assert Ids([q[0]] + rest)[i] == Ids(rest)[i - 1] && Ids([q[0]] + rest)[j] == Ids(rest)[j - 1];
              }
            }
          }
        }
      } else if !strict {
        SelectedFits(q[1..], budget, strict);
        if Distinct(Ids(q)) {
          TailDistinct(q);
        }
      }
    }
  }

  lemma TailDistinct(q: seq<Request>)
    requires q != [] && Distinct(Ids(q))
    ensures Distinct(Ids(q[1..])) && forall r :: r in q[1..] ==> r.id != q[0].id
  {
    MinsOfTail(q);
    forall r | r in q[1..] ensures r.id != q[0].id {
      var k :| 0 <= k < |q[1..]| && q[1..][k] == r;
      assert Ids(q)[k + 1] == r.id && Ids(q)[0] == q[0].id;
    }
  }

  // ---- Round-robin growth in closed form --------------------------------------------------

  /** `k` whole rounds plus one more unit for the first `p`, each capped by its room. */
  function Shares(room: seq<int>, k: int, p: int): seq<int> {
    seq(|room|, i requires 0 <= i < |room| => Min(room[i], k + if i < p then 1 else 0))
  }

  ghost predicate NonNegative(s: seq<int>) {
    forall i :: 0 <= i < |s| ==> s[i] >= 0
  }

  function Peak(s: seq<int>): (m: int)
    ensures m >= 0 && forall i :: 0 <= i < |s| ==> s[i] <= m
  {
    if s == [] then 0 else Max(s[0], Peak(s[1..]))
  }

  /** How far the round-robin walk gets before the spare units or the room run out. */
  function Level(room: seq<int>, spare: int, k: int, p: int): (r: (int, int))
    requires 0 <= k && 0 <= p <= |room|
    ensures 0 <= r.0 && 0 <= r.1 <= |room|
    decreases Max(0, Peak(room) - k), |room| - p
  {
    if Sum(Shares(room, k, p)) >= spare || k >= Peak(room) then (k, p)
    else if p < |room| then Level(room, spare, k, p + 1)
    else Level(room, spare, k + 1, 0)
  }

  function Extras(room: seq<int>, spare: int): seq<int> {
    var (k, p) := Level(room, spare, 0, 0);
    Shares(room, k, p)
  }

  lemma SharesStep(room: seq<int>, k: int, p: int)
    requires NonNegative(room) && 0 <= p < |room|
    ensures Shares(room, k, p + 1) == Shares(room, k, p)[p := Min(room[p], k + 1)]
    ensures Sum(Shares(room, k, p + 1)) == Sum(Shares(room, k, p)) + if k < room[p] then 1 else 0
  {
    var a, b := Shares(room, k, p), Shares(room, k, p + 1);
    assert b == a[p := Min(room[p], k + 1)];
    assert a == a[..p] + [a[p]] + a[p + 1..];
    assert b == a[..p] + [b[p]] + a[p + 1..];
    SumConcat(a[..p] + [a[p]], a[p + 1..]);
    SumConcat(a[..p] + [b[p]], a[p + 1..]);
    SumSnoc(a[..p], a[p]);
    SumSnoc(a[..p], b[p]);
  }

  lemma SharesWrap(room: seq<int>, k: int)
    ensures Shares(room, k, |room|) == Shares(room, k + 1, 0)
  {
  }

  lemma SharesTop(room: seq<int>, k: int, p: int)
    requires forall i :: 0 <= i < |room| ==> room[i] <= k
    ensures Shares(room, k, p) == room
  {
  }

  lemma SharesStart(room: seq<int>)
    requires NonNegative(room)
    ensures Sum(Shares(room, 0, 0)) == 0
  {
    ZeroSum(Shares(room, 0, 0));
  }

  lemma {:induction false} ZeroSum(s: seq<int>)
    requires forall i :: 0 <= i < |s| ==> s[i] == 0
    ensures Sum(s) == 0
  {
    if s != [] {
      ZeroSum(s[1..]);
    }
  }

  lemma {:induction false} LevelSpends(room: seq<int>, spare: int, k: int, p: int)
    requires NonNegative(room) && 0 <= k && 0 <= p <= |room|
    requires Sum(Shares(room, k, p)) <= spare
    ensures var (k', p') := Level(room, spare, k, p);
            Sum(Shares(room, k', p')) == Min(spare, Sum(room))
    decreases Max(0, Peak(room) - k), |room| - p
  {
    SumMonotone(Shares(room, k, p), room);
    if Sum(Shares(room, k, p)) >= spare {
    } else if k >= Peak(room) {
      SharesTop(room, k, p);
    } else if p < |room| {
      SharesStep(room, k, p);
      LevelSpends(room, spare, k, p + 1);
    } else {
      SharesWrap(room, k);
      LevelSpends(room, spare, k + 1, 0);
    }
  }

  lemma ExtrasSpend(room: seq<int>, spare: int)
    requires NonNegative(room) && spare >= 0
    ensures Sum(Extras(room, spare)) == Min(spare, Sum(room))
    ensures |Extras(room, spare)| == |room|
    ensures NonNegative(Extras(room, spare))
  {
    SharesStart(room);
    LevelSpends(room, spare, 0, 0);
  }

  // ---- Slicing ----------------------------------------------------------------------------

  function Slices(ids: seq<TaskId>, grants: seq<int>, free: seq<GpuId>): (r: seq<Allocation>)
    requires |ids| == |grants| && NonNegative(grants) && Sum(grants) <= |free|
    ensures |r| == |ids|
  {
    if ids == [] then []
    else
      SumNonNegative(grants);
      assert NonNegative(grants[1..]);
      SumNonNegative(grants[1..]);
      [Allocation(ids[0], free[..grants[0]])] + Slices(ids[1..], grants[1..], free[grants[0]..])
  }

  function Flatten(s: seq<Allocation>): seq<GpuId> {
    if s == [] then [] else s[0].gpus + Flatten(s[1..])
  }

  // ---- The plan ---------------------------------------------------------------------------

  function InputError(inp: Input): Option<PlanError> {
    if !Distinct(inp.free) then Some(DuplicateFreeGpu)
    else if inp.total < 1 then Some(NoGpus)
    else if |inp.free| > inp.total then Some(MoreFreeThanTotal)
    else if inp.activeJobs < 0 || inp.externalBusy < 0 || inp.reserve < 0 then Some(NegativeCount)
    else None
  }

  /** The first waiter in the queue whose capacity is undefined stops the whole plan. */
  function CapacityError(q: seq<Request>, total: int): Option<PlanError> {
    if q == [] then None
    else if Capacity(q[0], total).Err? then Some(Capacity(q[0], total).error)
    else CapacityError(q[1..], total)
  }

  function Room(q: seq<Request>, total: int): seq<int> {
    seq(|q|, i requires 0 <= i < |q| =>
      if Capacity(q[i], total).Ok? then Capacity(q[i], total).value - q[i].minGpus else 0)
  }

  /** A minimum each, plus the round-robin extras that fit its room. */
  function Grown(selected: seq<Request>, room: seq<int>, spare: int): seq<int>
    requires |room| == |selected|
  {
    var extras := Extras(room, spare);
    seq(|selected|, i requires 0 <= i < |selected| => selected[i].minGpus + extras[i])
  }

  function Grants(selected: seq<Request>, total: int, spare: int): seq<int> {
    Grown(selected, Room(selected, total), spare)
  }

  function SoloBudget(total: int, reserve: int): int {
    Max(1, total - Min(reserve, total - 1))
  }

  predicate Alone(inp: Input) {
    inp.activeJobs == 0 && inp.externalBusy == 0 && |inp.waiting| == 1
  }

  function Solo(r: Request, free: seq<GpuId>, total: int, reserve: int): seq<Allocation>
    requires total >= 1 && Capacity(r, total).Ok?
  {
    var grant := Min(Min(|free|, Capacity(r, total).value), SoloBudget(total, reserve));
    if grant < r.minGpus then [] else [Allocation(r.id, free[..grant])]
  }

  /** Cut the free list among the selected waiters. */
  function Launches(selected: seq<Request>, free: seq<GpuId>, total: int): seq<Allocation>
    requires Sum(Mins(selected)) <= |free|
    requires forall r :: r in selected ==> Capacity(r, total).Ok? && 1 <= r.minGpus <= total
  {
    var spare := |free| - Sum(Mins(selected));
    GrantsSum(selected, total, spare);
    Slices(Ids(selected), Grants(selected, total, spare), free)
  }

  function Batch(q: seq<Request>, free: seq<GpuId>, total: int, strict: bool): seq<Allocation>
    requires CapacityError(q, total).None? && |free| <= total
  {
    BatchReady(q, free, total, strict);
    Launches(Selected(q, |free|, strict), free, total)
  }

  lemma BatchReady(q: seq<Request>, free: seq<GpuId>, total: int, strict: bool)
    requires |free| <= total && CapacityError(q, total).None?
    ensures Sum(Mins(Selected(q, |free|, strict))) <= |free|
    ensures forall r :: r in Selected(q, |free|, strict) ==>
              r in q && Capacity(r, total).Ok? && 1 <= r.minGpus <= total
    ensures Distinct(Ids(q)) ==> Distinct(Ids(Selected(q, |free|, strict)))
  {
    CapacityErrorNone(q, total);
    SelectedFits(q, |free|, strict);
  }

  function Plan(inp: Input): Result<seq<Allocation>, PlanError> {
    var q := Queue(inp.waiting);
    if InputError(inp).Some? then Err(InputError(inp).value)
    else if CapacityError(q, inp.total).Some? then Err(CapacityError(q, inp.total).value)
    else if inp.free == [] || q == [] then Ok([])
    else
      CapacityErrorNone(q, inp.total);
      if Alone(inp) then Ok(Solo(q[0], inp.free, inp.total, inp.reserve))
      else Ok(Batch(q, inp.free, inp.total, inp.strictFifo))
  }

  lemma {:induction false} CapacityErrorNone(q: seq<Request>, total: int)
    ensures CapacityError(q, total).None? <==> forall r :: r in q ==> Capacity(r, total).Ok?
  {
    if q != [] {
      CapacityErrorNone(q[1..], total);
      assert q == [q[0]] + q[1..];
    }
  }

  lemma RoomNonNegative(selected: seq<Request>, total: int)
    requires forall r :: r in selected ==> Capacity(r, total).Ok? && r.minGpus <= total
    ensures NonNegative(Room(selected, total))
  {
  }

  lemma {:induction false} SumPairwise(a: seq<int>, b: seq<int>)
    requires |a| == |b|
    ensures Sum(seq(|a|, i requires 0 <= i < |a| => a[i] + b[i])) == Sum(a) + Sum(b)
  {
    if a != [] {
      SumPairwise(a[1..], b[1..]);
      assert seq(|a|, i requires 0 <= i < |a| => a[i] + b[i])[1..]
          == seq(|a[1..]|, i requires 0 <= i < |a[1..]| => a[1..][i] + b[1..][i]);
    }
  }

  /** Grants are a minimum plus an extra each. */
  lemma GrantsSum(selected: seq<Request>, total: int, spare: int)
    requires spare >= 0 && forall r :: r in selected ==> Capacity(r, total).Ok? && 1 <= r.minGpus <= total
    ensures NonNegative(Room(selected, total))
    ensures NonNegative(Grants(selected, total, spare)) && |Grants(selected, total, spare)| == |selected|
    ensures Sum(Grants(selected, total, spare))
            == Sum(Mins(selected)) + Min(spare, Sum(Room(selected, total)))
  {
    RoomNonNegative(selected, total);
    ExtrasSpend(Room(selected, total), spare);
    var mins, extras := Mins(selected), Extras(Room(selected, total), spare);
    SumPairwise(mins, extras);
    assert Grants(selected, total, spare) == seq(|mins|, i requires 0 <= i < |mins| => mins[i] + extras[i]);
  }
}

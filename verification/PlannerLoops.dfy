/** The planner as the program runs it: loops over the queue that arrive at exactly the plan. */
module PlannerLoops {
  import opened Prelude
  import opened Planner

  /** Shares that hand out the same amount are the same shares, whatever the rounds that produced them. */
  lemma SharesDetermined(room: seq<int>, k: int, p: int, k': int, p': int)
    requires 0 <= p <= |room| && 0 <= p' <= |room|
    requires Sum(Shares(room, k, p)) == Sum(Shares(room, k', p'))
    ensures Shares(room, k, p) == Shares(room, k', p')
  {
    var a, b := Shares(room, k, p), Shares(room, k', p');
    if k < k' || (k == k' && p <= p') {
      SumMonotone(a, b);
    } else {
      SumMonotone(b, a);
    }
  }

  lemma NewInQueue(queue: seq<Request>, i: nat)
    requires i < |queue| && Distinct(Ids(queue))
    ensures forall r :: r in queue[..i] ==> r.id != queue[i].id
    ensures queue[..i + 1] == queue[..i] + [queue[i]]
  {
    forall r | r in queue[..i] ensures r.id != queue[i].id {
      var k :| 0 <= k < i && queue[k] == r;
      assert Ids(queue)[k] == r.id && Ids(queue)[i] == queue[i].id;
    }
  }

  lemma MinsSnoc(q: seq<Request>, r: Request)
    ensures Sum(Mins(q + [r])) == Sum(Mins(q)) + r.minGpus
  {
    assert Mins(q + [r]) == Mins(q) + [r.minGpus];
    SumSnoc(Mins(q), r.minGpus);
  }

  /** Each selected waiter comes from the part of the queue already visited and holds its minimum. */
  ghost predicate Granted(selected: seq<Request>, grants: map<TaskId, int>, visited: seq<Request>) {
    forall r :: r in selected ==> r in visited && r.id in grants && grants[r.id] == r.minGpus
  }

  lemma GrantNext(selected: seq<Request>, grants: map<TaskId, int>, queue: seq<Request>, i: nat)
    requires i < |queue| && Distinct(Ids(queue)) && Granted(selected, grants, queue[..i])
    ensures Granted(selected, grants, queue[..i + 1])
    ensures Granted(selected + [queue[i]], grants[queue[i].id := queue[i].minGpus], queue[..i + 1])
  {
    NewInQueue(queue, i);
  }

  /** Visiting one more waiter: what is selected by the end stays the same. */
  lemma VisitNext(selected: seq<Request>, queue: seq<Request>, i: nat, budget: int, strict: bool)
    requires i < |queue|
    ensures selected + Selected(queue[i..], budget, strict)
            == if queue[i].minGpus <= budget
               then (selected + [queue[i]]) + Selected(queue[i + 1..], budget - queue[i].minGpus, strict)
               else if strict then selected
               else selected + Selected(queue[i + 1..], budget, strict)
  {
    assert queue[i..][1..] == queue[i + 1..];
    SelectedStep(queue[i..], budget, strict);
  }

  /** Grant every waiter its minimum while it fits, in queue order. */
  method GrantMinimums(queue: seq<Request>, budget: nat, strictFifo: bool)
    returns (selected: seq<Request>, grants: map<TaskId, int>, remaining: int)
    requires Distinct(Ids(queue))
    ensures selected == Selected(queue, budget, strictFifo)
    ensures remaining == budget - Sum(Mins(selected))
    ensures forall r :: r in selected ==> r.id in grants && grants[r.id] == r.minGpus
  {
    remaining, grants, selected := budget, map[], [];
    var i := 0;
    assert queue[0..] == queue;
    while i < |queue|
      invariant 0 <= i <= |queue|
      invariant selected + Selected(queue[i..], remaining, strictFifo) == Selected(queue, budget, strictFifo)
      invariant remaining == budget - Sum(Mins(selected))
      invariant Granted(selected, grants, queue[..i])
      decreases |queue| - i
    {
      var request := queue[i];
      VisitNext(selected, queue, i, remaining, strictFifo);
      GrantNext(selected, grants, queue, i);
      if request.minGpus <= remaining {
        MinsSnoc(selected, request);
        selected := selected + [request];
        grants := grants[request.id := request.minGpus];
        remaining := remaining - request.minGpus;
      } else if strictFifo {
        return;
      }
      i := i + 1;
    }
  }

  function RoomBy(selected: seq<Request>, capacities: map<TaskId, int>): seq<int>
    requires forall r :: r in selected ==> r.id in capacities
  {
    seq(|selected|, i requires 0 <= i < |selected| => capacities[selected[i].id] - selected[i].minGpus)
  }

  function GrantsBy(selected: seq<Request>, grants: map<TaskId, int>): seq<int>
    requires forall r :: r in selected ==> r.id in grants
  {
    seq(|selected|, i requires 0 <= i < |selected| => grants[selected[i].id])
  }

  ghost predicate AtLevel(selected: seq<Request>, grants: map<TaskId, int>, room: seq<int>, k: int, p: int)
    requires |room| == |selected|
  {
    forall i :: 0 <= i < |selected| ==>
      && selected[i].id in grants
      && grants[selected[i].id] == selected[i].minGpus + Shares(room, k, p)[i]
  }

  lemma AtLevelStep(selected: seq<Request>, grants: map<TaskId, int>, room: seq<int>, k: int, p: int)
    requires |room| == |selected| && 0 <= p < |selected| && Distinct(Ids(selected)) && NonNegative(room)
    requires AtLevel(selected, grants, room, k, p)
    ensures k >= room[p] ==> AtLevel(selected, grants, room, k, p + 1)
    ensures k < room[p] ==>
              AtLevel(selected, grants[selected[p].id := grants[selected[p].id] + 1], room, k, p + 1)
    ensures k < room[p] <==> grants[selected[p].id] < selected[p].minGpus + room[p]
  {
    SharesStep(room, k, p);
    forall i | 0 <= i < |selected| && i != p ensures selected[i].id != selected[p].id {
      assert Ids(selected)[i] == selected[i].id && Ids(selected)[p] == selected[p].id;
    }
  }

  /** Hand out the remaining GPUs one at a time in queue order until none is left or all are full. */
  method GrowRoundRobin(selected: seq<Request>, capacities: map<TaskId, int>,
                        minimums: map<TaskId, int>, spare: nat)
    returns (grants: map<TaskId, int>, remaining: int)
    requires Distinct(Ids(selected))
    requires forall r :: r in selected ==> r.id in minimums && minimums[r.id] == r.minGpus
    requires forall r :: r in selected ==> r.id in capacities && r.minGpus <= capacities[r.id]
    ensures forall r :: r in selected ==> r.id in grants
    ensures GrantsBy(selected, grants) == Grown(selected, RoomBy(selected, capacities), spare)
    ensures remaining == spare - Sum(Extras(RoomBy(selected, capacities), spare))
  {
    ghost var room := RoomBy(selected, capacities);
    ghost var k, p := 0, 0;
    grants, remaining := minimums, spare;
    SharesStart(room);
    while remaining > 0 && selected != []
      invariant 0 <= k && 0 <= p <= |room| && 0 <= remaining
      invariant remaining > 0 ==> p == 0
      invariant AtLevel(selected, grants, room, k, p)
      invariant remaining == spare - Sum(Shares(room, k, p))
      decreases remaining
    {
      var progressed := false;
      ghost var before := remaining;
      var i := 0;
      while i < |selected|
        invariant 0 <= i <= |selected| && p == i && 0 < remaining <= before
        invariant AtLevel(selected, grants, room, k, p)
        invariant remaining == spare - Sum(Shares(room, k, p))
        invariant progressed ==> remaining < before
        invariant !progressed ==> forall j :: 0 <= j < i ==> room[j] <= k
      {
        var id := selected[i].id;
        AtLevelStep(selected, grants, room, k, p);
        SharesStep(room, k, p);
        i, p := i + 1, p + 1;
        if grants[id] < capacities[id] {
          grants := grants[id := grants[id] + 1];
          remaining := remaining - 1;
          progressed := true;
          if remaining == 0 {
            break;
          }
        }
      }
      if !progressed {
        SharesTop(room, k, p);
        break;
      }
      if remaining > 0 {
        SharesWrap(room, k);
        k, p := k + 1, 0;
      }
    }
    assert remaining == 0 || Shares(room, k, p) == room;
    SpentOrFull(room, spare, k, p);
    AtLevelGrown(selected, grants, room, spare, k, p);
  }

  lemma AtLevelGrown(selected: seq<Request>, grants: map<TaskId, int>, room: seq<int>, spare: int, k: int, p: int)
    requires |room| == |selected| && AtLevel(selected, grants, room, k, p)
    requires Shares(room, k, p) == Extras(room, spare)
    ensures forall r :: r in selected ==> r.id in grants
    ensures GrantsBy(selected, grants) == Grown(selected, room, spare)
  {
    forall r | r in selected ensures r.id in grants {
      var i :| 0 <= i < |selected| && selected[i] == r;
      assert selected[i].id in grants;
    }
    var a, b := GrantsBy(selected, grants), Grown(selected, room, spare);
    forall i | 0 <= i < |selected| ensures a[i] == b[i] {
      assert grants[selected[i].id] == selected[i].minGpus + Shares(room, k, p)[i];
    }
  }

  /** Whichever way the walk ended, its shares are the closed form. */
  lemma SpentOrFull(room: seq<int>, spare: int, k: int, p: int)
    requires NonNegative(room) && spare >= 0 && 0 <= k && 0 <= p <= |room|
    requires Sum(Shares(room, k, p)) == spare || (Sum(Shares(room, k, p)) <= spare && Shares(room, k, p) == room)
    ensures Shares(room, k, p) == Extras(room, spare)
  {
    SumMonotone(Shares(room, k, p), room);
    SameSpending(room, spare, k, p);
  }

  lemma SameSpending(room: seq<int>, spare: int, k: int, p: int)
    requires NonNegative(room) && spare >= 0 && 0 <= k && 0 <= p <= |room|
    requires Sum(Shares(room, k, p)) == Min(spare, Sum(room))
    ensures Shares(room, k, p) == Extras(room, spare)
  {
    ExtrasSpend(room, spare);
    var level := Level(room, spare, 0, 0);
    SharesDetermined(room, k, p, level.0, level.1);
  }

  lemma SlicesStep(ids: seq<TaskId>, g: seq<int>, free: seq<GpuId>, i: nat, cursor: nat)
    requires |ids| == |g| && i < |g| && cursor <= |free|
    requires NonNegative(g[i..]) && Sum(g[i..]) <= |free| - cursor
    ensures 0 <= g[i] <= |free| - cursor
    ensures NonNegative(g[i + 1..]) && Sum(g[i + 1..]) <= |free| - cursor - g[i]
    ensures Slices(ids[i..], g[i..], free[cursor..])
            == [Allocation(ids[i], free[cursor..cursor + g[i]])]
               + Slices(ids[i + 1..], g[i + 1..], free[cursor + g[i]..])
  {
    assert g[i..][1..] == g[i + 1..] && ids[i..][1..] == ids[i + 1..];
    SumNonNegative(g[i..]);
    assert g[i..][0] == g[i];
    assert free[cursor..][..g[i]] == free[cursor..cursor + g[i]];
    assert free[cursor..][g[i]..] == free[cursor + g[i]..];
  }

  /** Cut the free list into consecutive runs of the granted sizes. */
  method CutFree(selected: seq<Request>, grants: map<TaskId, int>, free: seq<GpuId>)
    returns (allocations: seq<Allocation>)
    requires forall r :: r in selected ==> r.id in grants
    requires var g := GrantsBy(selected, grants);
             NonNegative(g) && Sum(g) <= |free|
    ensures var g := GrantsBy(selected, grants);
            allocations == Slices(Ids(selected), g, free)
  {
    ghost var ids := Ids(selected);
    ghost var g := GrantsBy(selected, grants);
    allocations := [];
    var cursor := 0;
    assert ids[0..] == ids && g[0..] == g && free[0..] == free;
    for i := 0 to |selected|
      invariant 0 <= cursor <= |free| && NonNegative(g[i..]) && Sum(g[i..]) <= |free[cursor..]|
      invariant allocations + Slices(ids[i..], g[i..], free[cursor..]) == Slices(ids, g, free)
    {
      var count := grants[selected[i].id];
      SlicesStep(ids, g, free, i, cursor);
      allocations := allocations + [Allocation(selected[i].id, free[cursor..cursor + count])];
      cursor := cursor + count;
    }
  }

  method CollectCapacities(queue: seq<Request>, total: int)
    returns (r: Result<map<TaskId, int>, PlanError>)
    requires Distinct(Ids(queue))
    ensures r.Err? ==> CapacityError(queue, total) == Some(r.error)
    ensures r.Ok? ==> CapacityError(queue, total).None?
    ensures r.Ok? ==> forall q :: q in queue ==> q.id in r.value && Capacity(q, total) == Ok(r.value[q.id])
  {
    var capacities: map<TaskId, int> := map[];
    assert queue[0..] == queue;
    for i := 0 to |queue|
      invariant CapacityError(queue[i..], total) == CapacityError(queue, total)
      invariant forall q :: q in queue[..i] ==> q.id in capacities && Capacity(q, total) == Ok(capacities[q.id])
    {
      assert queue[i..][1..] == queue[i + 1..];
      var c := Capacity(queue[i], total);
      if c.Err? {
        return Err(c.error);
      }
      NewInQueue(queue, i);
      capacities := capacities[queue[i].id := c.value];
    }
    assert queue[..|queue|] == queue;
    return Ok(capacities);
  }

  /** Greedy minimums, round-robin growth, then slicing. */
  method PlanBatch(queue: seq<Request>, free: seq<GpuId>, total: int, strictFifo: bool,
                   capacities: map<TaskId, int>)
    returns (allocations: seq<Allocation>)
    requires Distinct(Ids(queue)) && |free| <= total && CapacityError(queue, total).None?
    requires forall q :: q in queue ==> q.id in capacities && Capacity(q, total) == Ok(capacities[q.id])
    ensures allocations == Batch(queue, free, total, strictFifo)
  {
    BatchReady(queue, free, total, strictFifo);
    var selected, minimums, spare := GrantMinimums(queue, |free|, strictFifo);
    allocations := GrowAndCut(selected, minimums, spare, free, total, capacities);
  }

  lemma RoomByCapacities(selected: seq<Request>, total: int, capacities: map<TaskId, int>)
    requires forall r :: r in selected ==> r.id in capacities && Capacity(r, total) == Ok(capacities[r.id])
    ensures RoomBy(selected, capacities) == Room(selected, total)
    ensures forall r :: r in selected && r.minGpus <= total ==> r.minGpus <= capacities[r.id]
  {
  }

  method GrowAndCut(selected: seq<Request>, minimums: map<TaskId, int>, spare: int, free: seq<GpuId>,
                    total: int, capacities: map<TaskId, int>)
    returns (allocations: seq<Allocation>)
    requires Distinct(Ids(selected)) && spare == |free| - Sum(Mins(selected)) && spare >= 0
    requires forall r :: r in selected ==> Capacity(r, total).Ok? && 1 <= r.minGpus <= total
    requires forall r :: r in selected ==> r.id in minimums && minimums[r.id] == r.minGpus
    requires forall r :: r in selected ==> r.id in capacities && Capacity(r, total) == Ok(capacities[r.id])
    ensures allocations == Launches(selected, free, total)
  {
    RoomByCapacities(selected, total, capacities);
    GrantsSum(selected, total, spare);
    var grants, _ := GrowRoundRobin(selected, capacities, minimums, spare);
    allocations := CutFree(selected, grants, free);
  }

  /** Plan one atomic allocation batch. */
  method PlanAllocations(inp: Input) returns (r: Result<seq<Allocation>, PlanError>)
    requires Distinct(Ids(inp.waiting))
    ensures r == Plan(inp)
  {
    if InputError(inp).Some? {
      return Err(InputError(inp).value);
    }
    var queue := Queue(inp.waiting);
    QueueFacts(inp.waiting);
    var capacities := CollectCapacities(queue, inp.total);
    if capacities.Err? {
      return Err(capacities.error);
    }
    if inp.free == [] || queue == [] {
      return Ok([]);
    }
    if inp.activeJobs == 0 && inp.externalBusy == 0 && |queue| == 1 {
      var request := queue[0];
      assert request in queue;
      var soloBudget := Max(1, inp.total - Min(inp.reserve, inp.total - 1));
      var grant := Min(Min(|inp.free|, capacities.value[request.id]), soloBudget);
      if grant < request.minGpus {
        return Ok([]);
      }
      return Ok([Allocation(request.id, inp.free[..grant])]);
    }
    var allocations := PlanBatch(queue, inp.free, inp.total, inp.strictFifo, capacities.value);
    return Ok(allocations);
  }
}

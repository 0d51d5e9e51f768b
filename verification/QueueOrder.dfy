/** Who starts, in terms of the requests' own fields: a request is ahead of another by higher priority,
    then by age, then by the smaller id. */
module QueueOrder {
  import opened Prelude
  import opened Sorting
  import opened Planner
  import opened PlannerTheorems

  predicate Ahead(a: Request, b: Request) {
    || a.priority > b.priority
    || (a.priority == b.priority && a.createdAt < b.createdAt)
    || (a.priority == b.priority && a.createdAt == b.createdAt && a.id < b.id)
  }

  ghost predicate Launched(allocs: seq<Allocation>, id: TaskId) {
    exists x :: x in allocs && x.id == id
  }

  /** The minimums of the listed requests that belong to `s`, together. */
  ghost function Need(q: seq<Request>, s: set<Request>): int {
    if q == [] then 0 else (if q[0] in s then q[0].minGpus else 0) + Need(q[1..], s)
  }

  // ---- Adding up minimums -----------------------------------------------------------------------

  lemma {:induction false} NeedConcat(a: seq<Request>, b: seq<Request>, s: set<Request>)
    ensures Need(a + b, s) == Need(a, s) + Need(b, s)
  {
    if a == [] {
      assert a + b == b;
    } else {
      NeedConcat(a[1..], b, s);
      assert (a + b)[1..] == a[1..] + b;
    }
  }

  lemma NeedWithout(b: seq<Request>, i: nat, s: set<Request>)
    requires i < |b|
    ensures Need(b, s) == Need(b[..i] + b[i + 1..], s) + if b[i] in s then b[i].minGpus else 0
  {
    assert b == b[..i] + [b[i]] + b[i + 1..];
    NeedConcat(b[..i], b[i + 1..], s);
    NeedConcat(b[..i] + [b[i]], b[i + 1..], s);
    NeedConcat(b[..i], [b[i]], s);
  }

  lemma WithoutOne(b: seq<Request>, i: nat)
    requires i < |b|
    ensures multiset(b[..i] + b[i + 1..]) == multiset(b) - multiset([b[i]])
  {
    assert b == b[..i] + [b[i]] + b[i + 1..];
  }

  /** The order of the list does not matter. */
  lemma {:induction false} NeedPermutes(a: seq<Request>, b: seq<Request>, s: set<Request>)
    requires multiset(a) == multiset(b)
    ensures Need(a, s) == Need(b, s)
  {
    MultisetMembers(a, b);
    if a != [] {
      assert a[0] in a;
      var i :| 0 <= i < |b| && b[i] == a[0];
      TailMultiset(a);
      WithoutOne(b, i);
      NeedWithout(b, i, s);
      NeedPermutes(a[1..], b[..i] + b[i + 1..], s);
    }
  }

  lemma {:induction false} NeedNothing(q: seq<Request>, s: set<Request>)
    requires forall r :: r in q ==> r !in s
    ensures Need(q, s) == 0
  {
    if q != [] {
      NeedNothing(q[1..], s);
      assert q[0] in q;
    }
  }

  lemma {:induction false} NeedEverything(q: seq<Request>, s: set<Request>)
    requires forall r :: r in q ==> r in s
    ensures Need(q, s) == Sum(Mins(q))
  {
    if q != [] {
      MinsOfTail(q);
      NeedEverything(q[1..], s);
      assert q[0] in q;
    }
  }

  lemma {:induction false} NeedSelected(q: seq<Request>, budget: int, s: set<Request>)
    requires Distinct(Ids(q)) && forall r :: r in q ==> (r in s <==> r in Selected(q, budget, false))
    ensures Need(q, s) == Sum(Mins(Selected(q, budget, false)))
  {
    if q != [] {
      SelectedStep(q, budget, false);
      TailDistinct(q);
      assert q[0] in q;
      if q[0].minGpus <= budget {
        var rest := Selected(q[1..], budget - q[0].minGpus, false);
        MinsOfTail([q[0]] + rest);
        NeedSelected(q[1..], budget - q[0].minGpus, s);
      } else {
        NeedSelected(q[1..], budget, s);
      }
    }
  }

  // ---- The selection, waiter by waiter ------------------------------------------------------------

  /** A waiter is taken exactly when its minimum fits what the waiters taken before it have left. */
  lemma {:induction false} TakenAt(q: seq<Request>, budget: int, i: nat)
    requires Distinct(Ids(q)) && i < |q|
    ensures q[i] in Selected(q, budget, false)
            <==> q[i].minGpus + Sum(Mins(Selected(q[..i], budget, false))) <= budget
  {
    SelectedStep(q, budget, false);
    TailDistinct(q);
    if i > 0 {
      assert q[..i][1..] == q[1..][..i - 1] && q[..i][0] == q[0] && q[1..][i - 1] == q[i];
      SelectedStep(q[..i], budget, false);
      if q[0].minGpus <= budget {
        TakenAt(q[1..], budget - q[0].minGpus, i - 1);
        MinsOfTail([q[0]] + Selected(q[1..][..i - 1], budget - q[0].minGpus, false));
      } else {
        TakenAt(q[1..], budget, i - 1);
      }
    } else {
      assert q[..0] == [];
    }
  }

  /** In strict order a waiter is taken exactly when everything up to it fits. */
  lemma {:induction false} StrictTakenAt(q: seq<Request>, budget: int, i: nat)
    requires Distinct(Ids(q)) && i < |q| && forall r :: r in q ==> r.minGpus >= 1
    ensures q[i] in Selected(q, budget, true) <==> Sum(Mins(q[..i + 1])) <= budget
  {
    SelectedStep(q, budget, true);
    TailDistinct(q);
    assert forall r :: r in q[1..] ==> r in q;
    assert q[..i + 1][1..] == q[1..][..i] && q[..i + 1][0] == q[0];
    MinsOfTail(q[..i + 1]);
    SumNonNegative(Mins(q[1..][..i]));
    if i > 0 && q[0].minGpus <= budget {
      StrictTakenAt(q[1..], budget - q[0].minGpus, i - 1);
      assert q[1..][i - 1] == q[i];
    }
  }

  lemma PrefixTaken(q: seq<Request>, budget: int, i: nat)
    requires Distinct(Ids(q)) && i <= |q|
    ensures Distinct(Ids(q[..i]))
    ensures forall r :: r in q[..i] ==> (r in Selected(q[..i], budget, false) <==> r in Selected(q, budget, false))
  {
    assert Ids(q[..i]) == Ids(q)[..i];
    forall r | r in q[..i] ensures r in Selected(q[..i], budget, false) <==> r in Selected(q, budget, false) {
      var j :| 0 <= j < i && q[..i][j] == r;
      assert q[..i][..j] == q[..j];
      TakenAt(q, budget, j);
      TakenAt(q[..i], budget, j);
    }
  }

  // ---- The plan, waiter by waiter -----------------------------------------------------------------

  lemma AheadInQueue(waiting: seq<Request>, i: nat)
    requires Distinct(Ids(waiting)) && i < |Queue(waiting)|
    ensures Distinct(Ids(Queue(waiting)))
    ensures forall r :: r in Queue(waiting)[..i] ==> Ahead(r, Queue(waiting)[i])
    ensures forall r :: r in Queue(waiting)[i..] ==> !Ahead(r, Queue(waiting)[i])
  {
    QueueFacts(waiting);
    var q := Queue(waiting);
    forall r | r in q[..i] ensures Ahead(r, q[i]) {
      var j :| 0 <= j < i && q[..i][j] == r;
      assert Precedes(q[j], q[i]) && Ids(q)[j] != Ids(q)[i];
    }
    forall r | r in q[i..] ensures !Ahead(r, q[i]) {
      var j :| 0 <= j < |q| - i && q[i..][j] == r;
      assert j > 0 ==> Precedes(q[i], q[i + j]);
    }
  }

  ghost function AllAhead(waiting: seq<Request>, a: Request): set<Request> {
    set r | r in waiting && Ahead(r, a)
  }

  ghost function LaunchedAhead(waiting: seq<Request>, a: Request, allocs: seq<Allocation>): set<Request> {
    set r | r in waiting && Ahead(r, a) && Launched(allocs, r.id)
  }

  /** On a host that is not idle, or with several waiters, the launches are exactly the selection. */
  lemma LaunchedIsSelected(inp: Input, a: Request)
    requires Plan(inp).Ok? && Distinct(Ids(inp.waiting)) && a in inp.waiting
    requires inp.activeJobs != 0 || inp.externalBusy != 0 || |inp.waiting| != 1
    ensures Launched(Plan(inp).value, a.id) <==> a in Selected(Queue(inp.waiting), |inp.free|, inp.strictFifo)
    ensures a.minGpus >= 1
  {
    var q := Queue(inp.waiting);
    var sel := Selected(q, |inp.free|, inp.strictFifo);
    QueueFacts(inp.waiting);
    CapacityErrorNone(q, inp.total);
    SelectedFits(q, |inp.free|, inp.strictFifo);
    if inp.free != [] {
      var k, p := BatchClosedForm(inp);
      SelectedLaunched(q, sel, Plan(inp).value, a);
    }
  }

  lemma SelectedLaunched(q: seq<Request>, sel: seq<Request>, allocs: seq<Allocation>, a: Request)
    requires Distinct(Ids(q)) && a in q && forall r :: r in sel ==> r in q
    requires |allocs| == |sel| && forall i :: 0 <= i < |sel| ==> allocs[i].id == sel[i].id
    ensures Launched(allocs, a.id) <==> a in sel
  {
    if Launched(allocs, a.id) {
      var x :| x in allocs && x.id == a.id;
      var i :| 0 <= i < |allocs| && allocs[i] == x;
      assert sel[i] in sel;
      DistinctIdsSameRequest(q, a, sel[i]);
    }
    if a in sel {
      var i :| 0 <= i < |sel| && sel[i] == a;
      assert allocs[i] in allocs;
    }
  }

  /** Backfilling launches a waiter exactly when its minimum fits what the launched waiters ahead of it leave;
      strict order exactly when the minimums of everybody ahead leave room for it. */
  lemma LaunchedExactly(inp: Input, a: Request)
    requires Plan(inp).Ok? && Distinct(Ids(inp.waiting)) && a in inp.waiting
    requires inp.activeJobs != 0 || inp.externalBusy != 0 || |inp.waiting| != 1
    ensures inp.strictFifo ==>
              (Launched(Plan(inp).value, a.id)
               <==> Need(inp.waiting, AllAhead(inp.waiting, a)) + a.minGpus <= |inp.free|)
    ensures !inp.strictFifo ==>
              (Launched(Plan(inp).value, a.id)
               <==> Need(inp.waiting, LaunchedAhead(inp.waiting, a, Plan(inp).value)) + a.minGpus <= |inp.free|)
  {
    var q := Queue(inp.waiting);
    QueueFacts(inp.waiting);
    LaunchedIsSelected(inp, a);
    var i :| 0 <= i < |q| && q[i] == a;
    AheadInQueue(inp.waiting, i);
    if inp.strictFifo {
      StrictNeed(inp, i);
    } else {
      BackfillNeed(inp, i);
    }
  }

  lemma StrictNeed(inp: Input, i: nat)
    requires Plan(inp).Ok? && Distinct(Ids(inp.waiting)) && i < |Queue(inp.waiting)|
    ensures var q := Queue(inp.waiting);
            q[i] in Selected(q, |inp.free|, true)
            <==> Need(inp.waiting, AllAhead(inp.waiting, q[i])) + q[i].minGpus <= |inp.free|
  {
    var q := Queue(inp.waiting);
    QueueFacts(inp.waiting);
    CapacityErrorNone(q, inp.total);
    AheadInQueue(inp.waiting, i);
    StrictTakenAt(q, |inp.free|, i);
    NeedOfPrefix(inp.waiting, q, i, AllAhead(inp.waiting, q[i]));
  }

  lemma NeedOfPrefix(waiting: seq<Request>, q: seq<Request>, i: nat, s: set<Request>)
    requires multiset(waiting) == multiset(q) && i < |q|
    requires (forall r :: r in q[..i] ==> r in s) && forall r :: r in q[i..] ==> r !in s
    ensures Need(waiting, s) + q[i].minGpus == Sum(Mins(q[..i + 1]))
  {
    SplitNeed(waiting, q, i, s);
    NeedEverything(q[..i], s);
    assert Mins(q[..i + 1]) == Mins(q[..i]) + [q[i].minGpus];
    SumSnoc(Mins(q[..i]), q[i].minGpus);
  }

  /** Only what stands before position `i` of the queue counts. */
  lemma SplitNeed(waiting: seq<Request>, q: seq<Request>, i: nat, s: set<Request>)
    requires multiset(waiting) == multiset(q) && i <= |q| && forall r :: r in q[i..] ==> r !in s
    ensures Need(waiting, s) == Need(q[..i], s)
  {
    NeedPermutes(waiting, q, s);
    NeedConcat(q[..i], q[i..], s);
    NeedNothing(q[i..], s);
    assert q == q[..i] + q[i..];
  }

  lemma BackfillNeed(inp: Input, i: nat)
    requires Plan(inp).Ok? && Distinct(Ids(inp.waiting)) && i < |Queue(inp.waiting)| && !inp.strictFifo
    requires inp.activeJobs != 0 || inp.externalBusy != 0 || |inp.waiting| != 1
    ensures var q := Queue(inp.waiting);
            q[i] in Selected(q, |inp.free|, false)
            <==> Need(inp.waiting, LaunchedAhead(inp.waiting, q[i], Plan(inp).value)) + q[i].minGpus <= |inp.free|
  {
    var q, n := Queue(inp.waiting), |inp.free|;
    var ahead := LaunchedAhead(inp.waiting, q[i], Plan(inp).value);
    QueueFacts(inp.waiting);
    AheadInQueue(inp.waiting, i);
    TakenAt(q, n, i);
    SplitNeed(inp.waiting, q, i, ahead);
    PrefixTaken(q, n, i);
    forall r | r in q[..i] ensures r in ahead <==> r in Selected(q[..i], n, false) {
      assert r in q;
      LaunchedIsSelected(inp, r);
    }
    NeedSelected(q[..i], n, ahead);
  }

  /** Whoever is first in line, by priority, then age, then id, starts if its minimum is free. */
  lemma FirstInLineStarts(inp: Input, a: Request)
    requires Plan(inp).Ok? && Distinct(Ids(inp.waiting)) && a in inp.waiting && a.minGpus <= |inp.free|
    requires inp.activeJobs != 0 || inp.externalBusy != 0 || |inp.waiting| != 1
    requires forall r :: r in inp.waiting && r != a ==>
               || r.priority < a.priority
               || (r.priority == a.priority && a.createdAt < r.createdAt)
               || (r.priority == a.priority && a.createdAt == r.createdAt && a.id < r.id)
    ensures exists x :: x in Plan(inp).value && x.id == a.id
  {
    LaunchedExactly(inp, a);
    assert AllAhead(inp.waiting, a) == {} && LaunchedAhead(inp.waiting, a, Plan(inp).value) == {};
    NeedNothing(inp.waiting, {});
    assert Launched(Plan(inp).value, a.id);
  }

  lemma {:induction false} NeedGrows(q: seq<Request>, s: set<Request>, b: Request, u: set<Request>)
    requires s <= u && b in u && b !in s && b in q && forall r :: r in q ==> r.minGpus >= 1
    ensures Need(q, s) + b.minGpus <= Need(q, u)
  {
    if q[0] == b {
      NeedMonotone(q[1..], s, u);
    } else {
      NeedGrows(q[1..], s, b, u);
      assert q[0] in q;
    }
  }

  lemma {:induction false} NeedMonotone(q: seq<Request>, s: set<Request>, u: set<Request>)
    requires s <= u && forall r :: r in q ==> r.minGpus >= 1
    ensures Need(q, s) <= Need(q, u)
  {
    if q != [] {
      NeedMonotone(q[1..], s, u);
      assert q[0] in q;
    }
  }

  /** In strict order nobody is launched past anybody: with a waiter, everybody ahead of it is launched. */
  lemma StrictLaunchesInOrder(inp: Input, a: Request, b: Request)
    requires Plan(inp).Ok? && Distinct(Ids(inp.waiting)) && inp.strictFifo && a in inp.waiting && b in inp.waiting
    requires inp.activeJobs != 0 || inp.externalBusy != 0 || |inp.waiting| != 1
    requires || a.priority > b.priority
             || (a.priority == b.priority && a.createdAt < b.createdAt)
             || (a.priority == b.priority && a.createdAt == b.createdAt && a.id < b.id)
    requires exists x :: x in Plan(inp).value && x.id == b.id
    ensures exists x :: x in Plan(inp).value && x.id == a.id
  {
    assert Launched(Plan(inp).value, b.id);
    LaunchedExactly(inp, a);
    LaunchedExactly(inp, b);
    forall r | r in inp.waiting ensures r.minGpus >= 1 {
      LaunchedIsSelected(inp, r);
    }
    var before, upto := AllAhead(inp.waiting, a), AllAhead(inp.waiting, b);
    NeedGrows(inp.waiting, before, a, upto);
    LaunchedIsSelected(inp, b);
    assert Launched(Plan(inp).value, a.id);
  }

  // ---- Refused plans ------------------------------------------------------------------------------

  predicate PlausibleCounts(inp: Input) {
    && Distinct(inp.free) && 1 <= inp.total && |inp.free| <= inp.total
    && 0 <= inp.activeJobs && 0 <= inp.externalBusy && 0 <= inp.reserve
  }

  /** The first waiter in line whose size is impossible. */
  ghost predicate FirstIllSized(waiting: seq<Request>, total: int, a: Request) {
    && a in waiting && !WellSized(a, total)
    && forall r :: r in waiting && Ahead(r, a) ==> WellSized(r, total)
  }

  lemma {:induction false} FirstError(q: seq<Request>, total: int) returns (i: nat)
    requires CapacityError(q, total).Some?
    ensures i < |q| && Capacity(q[i], total) == Err(CapacityError(q, total).value)
    ensures forall r :: r in q[..i] ==> Capacity(r, total).Ok?
  {
    if Capacity(q[0], total).Err? {
      i := 0;
    } else {
      var j := FirstError(q[1..], total);
      i := j + 1;
      assert q[..i] == [q[0]] + q[1..][..j];
    }
  }

  /** With plausible counts a plan is refused exactly when some waiter's size is impossible, and the
      refusal names the fault of the first such waiter in line. */
  lemma RefusalNamesFirst(inp: Input)
    requires PlausibleCounts(inp) && Distinct(Ids(inp.waiting))
    ensures Plan(inp).Err? <==> exists a :: FirstIllSized(inp.waiting, inp.total, a)
    ensures forall a :: FirstIllSized(inp.waiting, inp.total, a) ==>
              Plan(inp) == Err(if a.minGpus < 1 then MinimumBelowOne else MaximumBelowMinimum)
  {
    var q := Queue(inp.waiting);
    QueueFacts(inp.waiting);
    PlanAcceptedExactly(inp);
    if Plan(inp).Err? {
      var i := FirstError(q, inp.total);
      FirstErrorLeads(inp, i);
      forall a | FirstIllSized(inp.waiting, inp.total, a) ensures a == q[i] {
        OneIsAhead(inp.waiting, a, q[i]);
      }
    }
  }

  lemma FirstErrorLeads(inp: Input, i: nat)
    requires inp.total >= 1 && Distinct(Ids(inp.waiting)) && i < |Queue(inp.waiting)|
    requires Capacity(Queue(inp.waiting)[i], inp.total).Err?
    requires forall r :: r in Queue(inp.waiting)[..i] ==> Capacity(r, inp.total).Ok?
    ensures FirstIllSized(inp.waiting, inp.total, Queue(inp.waiting)[i])
  {
    var q := Queue(inp.waiting);
    QueueFacts(inp.waiting);
    AheadInQueue(inp.waiting, i);
    assert q == q[..i] + q[i..];
    assert q[i] in q;
  }

  lemma OneIsAhead(waiting: seq<Request>, a: Request, b: Request)
    requires Distinct(Ids(waiting)) && a in waiting && b in waiting
    ensures a == b || Ahead(a, b) || Ahead(b, a)
  {
    if a.id == b.id {
      DistinctIdsSameRequest(waiting, a, b);
    }
  }

  /** Implausible counts are refused for the first fault in this order. */
  lemma RefusesCounts(inp: Input)
    ensures Plan(inp) == Err(DuplicateFreeGpu) <==> !Distinct(inp.free)
    ensures Plan(inp) == Err(NoGpus) <==> Distinct(inp.free) && inp.total <= 0
    ensures Plan(inp) == Err(MoreFreeThanTotal) <==> Distinct(inp.free) && 1 <= inp.total < |inp.free|
    ensures Plan(inp) == Err(NegativeCount)
            <==> && Distinct(inp.free) && 1 <= inp.total && |inp.free| <= inp.total
                 && (inp.activeJobs < 0 || inp.externalBusy < 0 || inp.reserve < 0)
  {
    var q := Queue(inp.waiting);
    if CapacityError(q, inp.total).Some? {
      var i := FirstError(q, inp.total);
    }
  }
}

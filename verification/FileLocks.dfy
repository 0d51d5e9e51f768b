/** The re-entrant file lock: nested entries by one session share the file lock, which is given back
    only at depth zero, so that every locked section is atomic in any interleaving. */
module FileLocks {
  import opened Prelude

  // ---- One session's view of the lock -----------------------------------------------------------

  /** Who holds the file lock, and how deep one session is nested. */
  datatype LockState = LockState(owner: Option<nat>, depth: nat)

  predicate CanEnter(l: LockState) {
    l.depth > 0 || l.owner.None?
  }

  function Entered(l: LockState, me: nat): LockState {
    LockState(if l.depth == 0 then Some(me) else l.owner, l.depth + 1)
  }

  function Left(l: LockState): LockState
    requires l.depth > 0
  {
    LockState(if l.depth == 1 then None else l.owner, l.depth - 1)
  }

  class FileLock {
    var owner: Option<nat>

    constructor ()
      ensures owner == None
    {
      owner := None;
    }
  }

  class SessionLock {
    const me: nat
    const file: FileLock
    var depth: nat
    var handle: bool

    constructor (me: nat, file: FileLock)
      requires file.owner != Some(me)
      ensures this.me == me && this.file == file && Valid() && depth == 0
    {
      this.me, this.file, depth, handle := me, file, 0, false;
    }

    ghost predicate Valid()
      reads this, file
    {
      (handle <==> depth > 0) && (handle <==> file.owner == Some(me))
    }

    function State(): LockState
      reads this, file
    {
      LockState(file.owner, depth)
    }

    /** Enter once more; fails where the original would wait for another session. */
    method TryEnter() returns (entered: bool, outermost: bool)
      requires Valid()
      modifies this, file
      ensures Valid()
      ensures entered <==> CanEnter(old(State()))
      ensures outermost <==> entered && old(depth) == 0
      ensures State() == if entered then Entered(old(State()), me) else old(State())
    {
      outermost := depth == 0;
      if outermost {
        if file.owner.Some? {
          return false, false;
        }
        file.owner := Some(me);
        handle := true;
      }
      depth := depth + 1;
      return true, outermost;
    }

    /** Leave the frame that was entered with this `outermost`. */
    method Leave(outermost: bool)
      requires Valid() && depth > 0 && (outermost <==> depth == 1)
      modifies this, file
      ensures Valid()
      ensures State() == Left(old(State()))
    {
      depth := depth - 1;
      if outermost && handle {
        file.owner := None;
        handle := false;
      }
    }
  }

  // ---- Many sessions, step by step --------------------------------------------------------------

  datatype Instr<A> = In | Out | Act(a: A)

  /** How deep a section is nested after its first `k` instructions. */
  function Depth<A>(code: seq<Instr<A>>, k: nat): int
    requires k <= |code|
  {
    if k == 0 then 0
    else Depth(code, k - 1) + match code[k - 1] case In => 1 case Out => -1 case Act(_) => 0
  }

  /** One locked section: entered first, nested at will, and left at the very end only. */
  ghost predicate Section<A>(code: seq<Instr<A>>) {
    && |code| >= 2 && code[0] == In
    && (forall k :: 0 < k < |code| ==> Depth(code, k) > 0)
    && Depth(code, |code|) == 0
  }

  function Acts<A>(code: seq<Instr<A>>): seq<A> {
    if code == [] then []
    else Acts(code[..|code| - 1]) + match code[|code| - 1] case Act(a) => [a] case _ => []
  }

  function Do<A, D>(run: (A, D) -> D, d: D, acts: seq<A>): D {
    if acts == [] then d else run(acts[|acts| - 1], Do(run, d, acts[..|acts| - 1]))
  }

  lemma DoSnoc<A, D>(run: (A, D) -> D, d: D, acts: seq<A>, a: A)
    ensures Do(run, d, acts + [a]) == run(a, Do(run, d, acts))
  {
    assert (acts + [a])[..|acts|] == acts;
  }

  predicate Known(order: seq<nat>, sections: nat) {
    forall i :: 0 <= i < |order| ==> order[i] < sections
  }

  /** Whole sections, one after the other. */
  function Serial<A, D>(run: (A, D) -> D, code: seq<seq<Instr<A>>>, d: D, order: seq<nat>): D
    requires Known(order, |code|)
  {
    if order == [] then d
    else
      var last := |order| - 1;
      Do(run, Serial(run, code, d, order[..last]), Acts(code[order[last]]))
  }

  /** `order` records in which order the sections took the file lock. */
  datatype Machine<D> = Machine(pc: seq<nat>, depth: seq<nat>, owner: Option<nat>, data: D, order: seq<nat>)

  ghost predicate WellFormed<A, D>(code: seq<seq<Instr<A>>>, m: Machine<D>) {
    && |m.pc| == |code| && |m.depth| == |code|
    && (forall s :: 0 <= s < |code| ==> Section(code[s]))
    && (forall s :: 0 <= s < |code| ==> m.pc[s] <= |code[s]| && m.depth[s] == Depth(code[s], m.pc[s]))
  }

  ghost predicate Ready<A, D>(code: seq<seq<Instr<A>>>, m: Machine<D>, s: nat)
    requires WellFormed(code, m)
  {
    && s < |code| && m.pc[s] < |code[s]|
    && (code[s][m.pc[s]] == In ==> CanEnter(LockState(m.owner, m.depth[s])))
  }

  /** One instruction of section `s`; nothing happens while it has to wait or when it is done. */
  ghost function Tick<A, D>(run: (A, D) -> D, code: seq<seq<Instr<A>>>, m: Machine<D>, s: nat): Machine<D> {
    if !WellFormed(code, m) || !Ready(code, m, s) then m
    else
      var lock := LockState(m.owner, m.depth[s]);
      var moved := m.(pc := m.pc[s := m.pc[s] + 1]);
      match code[s][m.pc[s]]
      case In =>
        var l := Entered(lock, s);
        moved.(owner := l.owner, depth := m.depth[s := l.depth],
               order := if lock.depth == 0 then m.order + [s] else m.order)
      case Out =>
        if lock.depth == 0 then m
        else
          var l := Left(lock);
          moved.(owner := l.owner, depth := m.depth[s := l.depth])
      case Act(a) => moved.(data := run(a, m.data))
  }

  ghost predicate Finished<A, D>(code: seq<seq<Instr<A>>>, m: Machine<D>, s: nat)
    requires WellFormed(code, m)
  {
    s < |code| && m.pc[s] == |code[s]|
  }

  /** Sections that took the lock ran to their end, except the one that holds it; the data is what the
      finished sections in turn, and then the begun part of the holder, make of the start. */
  ghost predicate InStep<A, D>(run: (A, D) -> D, code: seq<seq<Instr<A>>>, m: Machine<D>, start: D) {
    && WellFormed(code, m)
    && Distinct(m.order)
    && Known(m.order, |code|)
    && (forall s :: 0 <= s < |code| && s !in m.order ==> m.pc[s] == 0)
    && (forall s :: s in m.order && m.owner != Some(s) ==> Finished(code, m, s))
    && match m.owner
       case None => m.data == Serial(run, code, start, m.order)
       case Some(s) =>
         && m.order != [] && m.order[|m.order| - 1] == s
         && 0 < m.pc[s] < |code[s]|
         && m.data == Do(run, Serial(run, code, start, m.order[..|m.order| - 1]), Acts(code[s][..m.pc[s]]))
  }

  lemma DepthInside<A>(code: seq<Instr<A>>, k: nat)
    requires Section(code) && k < |code|
    ensures Depth(code, k) == 0 <==> k == 0
    ensures code[k] == Out ==> Depth(code, k) > 0
    ensures code[k].Act? ==> Depth(code, k) > 0
    ensures code[k] == Out && Depth(code, k) == 1 <==> k == |code| - 1
  {
    assert Depth(code, k + 1) == Depth(code, k) + match code[k] case In => 1 case Out => -1 case Act(_) => 0;
    if k == |code| - 1 {
      assert k > 0;
    }
  }

  lemma ActsSnoc<A>(code: seq<Instr<A>>, k: nat)
    requires k < |code|
    ensures Acts(code[..k + 1]) == Acts(code[..k]) + match code[k] case Act(a) => [a] case _ => []
  {
    assert code[..k + 1][..k] == code[..k];
  }

  /** The holder is the only section that is nested at all. */
  lemma OnlyHolderIsInside<A, D>(run: (A, D) -> D, code: seq<seq<Instr<A>>>, m: Machine<D>, start: D, s: nat)
    requires InStep(run, code, m, start) && s < |code|
    ensures m.depth[s] > 0 <==> m.owner == Some(s)
  {
    if m.owner == Some(s) {
      DepthInside(code[s], m.pc[s]);
    } else if s in m.order {
      assert Finished(code, m, s);
    }
  }

  lemma TickFirst<A, D>(run: (A, D) -> D, code: seq<seq<Instr<A>>>, m: Machine<D>, start: D, s: nat)
    requires InStep(run, code, m, start) && Ready(code, m, s) && m.pc[s] == 0
    ensures InStep(run, code, Tick(run, code, m, s), start)
  {
    OnlyHolderIsInside(run, code, m, start, s);
    var next := Tick(run, code, m, s);
    assert s !in m.order;
    assert Depth(code[s], 1) == 1;
    assert next.order[..|next.order| - 1] == m.order;
    assert code[s][..1] == [In] && Acts(code[s][..1]) == [] by {
      ActsSnoc(code[s], 0);
    }
  }

  /** What one instruction of the lock holder does. */
  lemma HolderTick<A, D>(run: (A, D) -> D, code: seq<seq<Instr<A>>>, m: Machine<D>, start: D, s: nat)
    requires InStep(run, code, m, start) && m.owner == Some(s)
    ensures Ready(code, m, s)
    ensures var k := m.pc[s];
            && m.depth[s] == Depth(code[s], k) > 0
            && Tick(run, code, m, s)
               == Machine(m.pc[s := k + 1], m.depth[s := Depth(code[s], k + 1)],
                          if k == |code[s]| - 1 then None else Some(s),
                          if code[s][k].Act? then run(code[s][k].a, m.data) else m.data, m.order)
  {
    OnlyHolderIsInside(run, code, m, start, s);
    DepthInside(code[s], m.pc[s]);
    if code[s][m.pc[s]].Act? {
      assert m.depth[s := m.depth[s]] == m.depth;
    }
  }

  lemma TickInside<A, D>(run: (A, D) -> D, code: seq<seq<Instr<A>>>, m: Machine<D>, start: D, s: nat)
    requires InStep(run, code, m, start) && m.owner == Some(s)
    ensures InStep(run, code, Tick(run, code, m, s), start)
  {
    var k, last := m.pc[s], |m.order| - 1;
    var before := Serial(run, code, start, m.order[..last]);
    HolderTick(run, code, m, start, s);
    ActsSnoc(code[s], k);
    DepthInside(code[s], k);
    var done := Acts(code[s][..k]);
    if code[s][k].Act? {
      DoSnoc(run, before, done, code[s][k].a);
    } else {
      assert done + [] == done;
    }
    var next := Tick(run, code, m, s);
    assert next.data == Do(run, before, Acts(code[s][..k + 1]));
    if k == |code[s]| - 1 {
      assert code[s][..k + 1] == code[s];
    }
    forall u | 0 <= u < |code| && u != s ensures next.pc[u] == m.pc[u] && next.depth[u] == m.depth[u] {
    }
  }

  /** Any step of any section keeps the picture of whole sections in a row. */
  lemma TickKeeps<A, D>(run: (A, D) -> D, code: seq<seq<Instr<A>>>, m: Machine<D>, start: D, s: nat)
    requires InStep(run, code, m, start)
    ensures InStep(run, code, Tick(run, code, m, s), start)
  {
    if Ready(code, m, s) {
      if m.owner == Some(s) {
        TickInside(run, code, m, start, s);
      } else {
        assert s !in m.order;
        TickFirst(run, code, m, start, s);
      }
    }
  }

  function Begin<D>(sections: nat, start: D): Machine<D> {
    Machine(seq(sections, _ => 0), seq(sections, _ => 0), None, start, [])
  }

  /** The machine after letting the sections step in the order of `schedule`. */
  ghost function Ticks<A, D>(run: (A, D) -> D, code: seq<seq<Instr<A>>>, m: Machine<D>, schedule: seq<nat>): Machine<D>
    decreases |schedule|
  {
    if schedule == [] then m else Ticks(run, code, Tick(run, code, m, schedule[0]), schedule[1..])
  }

  lemma {:induction false} TicksKeep<A, D>(run: (A, D) -> D, code: seq<seq<Instr<A>>>, m: Machine<D>, start: D,
                                           schedule: seq<nat>)
    requires InStep(run, code, m, start)
    ensures InStep(run, code, Ticks(run, code, m, schedule), start)
    decreases |schedule|
  {
    if schedule != [] {
      TickKeeps(run, code, m, start, schedule[0]);
      TicksKeep(run, code, Tick(run, code, m, schedule[0]), start, schedule[1..]);
    }
  }

  /** Locked sections are atomic: whatever the interleaving of their instructions, at most one section is
      inside at any time, and whenever the file lock is free the data is what the sections that finished
      produce one whole section after the other. */
  lemma SectionsAreAtomic<A, D>(run: (A, D) -> D, code: seq<seq<Instr<A>>>, start: D, schedule: seq<nat>)
    requires forall s :: 0 <= s < |code| ==> Section(code[s])
    ensures var end := Ticks(run, code, Begin(|code|, start), schedule);
            && WellFormed(code, end) && Distinct(end.order) && Known(end.order, |code|)
            && (end.owner.Some? ==> end.owner.value < |code|)
            && (forall s :: 0 <= s < |code| ==> (end.depth[s] > 0 <==> end.owner == Some(s)))
            && (forall s :: 0 <= s < |code| ==> (Finished(code, end, s) <==> s in end.order && end.owner != Some(s)))
            && (end.owner.None? ==> end.data == Serial(run, code, start, end.order))
  {
    var end := Ticks(run, code, Begin(|code|, start), schedule);
    assert InStep(run, code, Begin(|code|, start), start);
    TicksKeep(run, code, Begin(|code|, start), start, schedule);
    forall s | 0 <= s < |code| ensures end.depth[s] > 0 <==> end.owner == Some(s) {
      OnlyHolderIsInside(run, code, end, start, s);
    }
  }

  /** Nobody waits for ever on himself: as long as a section is unfinished, some section can step. */
  lemma SomebodyIsReady<A, D>(run: (A, D) -> D, code: seq<seq<Instr<A>>>, m: Machine<D>, start: D, s: nat)
    requires InStep(run, code, m, start) && s < |code| && !Finished(code, m, s)
    ensures exists u :: Ready(code, m, u)
  {
    if m.owner.Some? {
      HolderTick(run, code, m, start, m.owner.value);
      assert Ready(code, m, m.owner.value);
    } else {
      assert s !in m.order;
      assert Ready(code, m, s);
    }
  }
}

/** The append-only timeline tables: idempotent recording, all-or-nothing batches, and the
    resolution of overrides.

    Observations are already normalised; a row's digest, used as its id when the caller gives
    none, is a parameter. */
module TimelineStore {
  import opened Prelude
  import opened Sorting

  // ---- One append-only table ----------------------------------------------------------------

  /** A row as offered by a caller: possibly malformed, possibly without an id. */
  datatype Offer<C> = Offer(wellFormed: bool, id: Option<int>, content: C)

  datatype RecordError = Malformed | Conflict

  type Table<C> = map<int, C>

  function IdOf<C>(o: Offer<C>, digest: C -> int): int {
    match o.id
    case None => digest(o.content)
    case Some(id) => id
  }

  /** The table after recording one offer, or why it is refused. */
  function Recorded<C(==)>(table: Table<C>, o: Offer<C>, digest: C -> int): Result<Table<C>, RecordError> {
    var id := IdOf(o, digest);
    if !o.wellFormed then Err(Malformed)
    else if id in table then if table[id] == o.content then Ok(table) else Err(Conflict)
    else Ok(table[id := o.content])
  }

  /** The table after recording offers in turn, stopping at the first refusal. */
  function AllRecorded<C(==)>(table: Table<C>, offers: seq<Offer<C>>, digest: C -> int)
    : Result<Table<C>, RecordError>
    decreases |offers|
  {
    if offers == [] then Ok(table)
    else
      match Recorded(table, offers[0], digest)
      case Err(e) => Err(e)
      case Ok(t) => AllRecorded(t, offers[1..], digest)
  }

  /** A request to the store: one offer, or a batch that succeeds or fails as a whole. */
  datatype Call<C> = One(offer: Offer<C>) | Batch(offers: seq<Offer<C>>)

  function CallOffers<C>(c: Call<C>): seq<Offer<C>> {
    match c
    case One(o) => [o]
    case Batch(offers) => offers
  }

  function Attempt<C(==)>(table: Table<C>, c: Call<C>, digest: C -> int): Result<Table<C>, RecordError> {
    AllRecorded(table, CallOffers(c), digest)
  }

  /** A refused call leaves the table as it was. */
  function Served<C(==)>(table: Table<C>, c: Call<C>, digest: C -> int): Table<C> {
    match Attempt(table, c, digest)
    case Ok(t) => t
    case Err(_) => table
  }

  function Run<C(==)>(table: Table<C>, calls: seq<Call<C>>, digest: C -> int): Table<C>
    decreases |calls|
  {
    if calls == [] then table else Run(Served(table, calls[0], digest), calls[1..], digest)
  }

  ghost predicate Grows<C>(a: Table<C>, b: Table<C>) {
    forall id :: id in a ==> id in b && b[id] == a[id]
  }

  lemma {:induction false} AllRecordedFacts<C>(table: Table<C>, offers: seq<Offer<C>>, digest: C -> int)
    requires AllRecorded(table, offers, digest).Ok?
    ensures var t := AllRecorded(table, offers, digest).value;
            && Grows(table, t)
            && forall o :: o in offers ==> o.wellFormed && IdOf(o, digest) in t && t[IdOf(o, digest)] == o.content
    decreases |offers|
  {
    if offers != [] {
      AllRecordedFacts(Recorded(table, offers[0], digest).value, offers[1..], digest);
      assert offers == [offers[0]] + offers[1..];
    }
  }

  function OfferedIds<C>(offers: seq<Offer<C>>, digest: C -> int): set<int> {
    if offers == [] then {} else {IdOf(offers[0], digest)} + OfferedIds(offers[1..], digest)
  }

  /** Every offer is well formed and agrees with the table and with every other offer of its id. */
  ghost predicate Agreeable<C>(table: Table<C>, offers: seq<Offer<C>>, digest: C -> int) {
    && (forall o :: o in offers ==>
          o.wellFormed && (IdOf(o, digest) in table ==> table[IdOf(o, digest)] == o.content))
    && (forall o, p :: o in offers && p in offers && IdOf(o, digest) == IdOf(p, digest) ==> o.content == p.content)
  }

  lemma TailAgreeable<C>(table: Table<C>, offers: seq<Offer<C>>, digest: C -> int)
    requires offers != [] && Agreeable(table, offers, digest)
    ensures Recorded(table, offers[0], digest).Ok?
    ensures Agreeable(Recorded(table, offers[0], digest).value, offers[1..], digest)
  {
    assert offers[0] in offers;
    assert forall o :: o in offers[1..] ==> o in offers;
  }

  /** Recording succeeds exactly when the offers agree, and then adds exactly their ids, each with its
      content, to what was there. */
  lemma {:induction false} AllRecordedExactly<C>(table: Table<C>, offers: seq<Offer<C>>, digest: C -> int)
    ensures AllRecorded(table, offers, digest).Ok? <==> Agreeable(table, offers, digest)
    ensures AllRecorded(table, offers, digest).Ok? ==>
              var t := AllRecorded(table, offers, digest).value;
              && Grows(table, t) && t.Keys == table.Keys + OfferedIds(offers, digest)
              && forall o :: o in offers ==> IdOf(o, digest) in t && t[IdOf(o, digest)] == o.content
    decreases |offers|
  {
    if AllRecorded(table, offers, digest).Ok? {
      AllRecordedFacts(table, offers, digest);
    }
    if offers != [] {
      if Recorded(table, offers[0], digest).Ok? {
        AllRecordedExactly(Recorded(table, offers[0], digest).value, offers[1..], digest);
      }
      if Agreeable(table, offers, digest) {
        TailAgreeable(table, offers, digest);
      }
    }
  }

  /** Rows that are already there are recorded without any change. */
  lemma {:induction false} AlreadyThere<C>(table: Table<C>, offers: seq<Offer<C>>, digest: C -> int)
    requires forall o :: o in offers ==>
               o.wellFormed && IdOf(o, digest) in table && table[IdOf(o, digest)] == o.content
    ensures AllRecorded(table, offers, digest) == Ok(table)
    decreases |offers|
  {
    if offers != [] {
      assert offers[0] in offers;
      assert forall o :: o in offers[1..] ==> o in offers;
      AlreadyThere(table, offers[1..], digest);
    }
  }

  /** A refusal is final: no later growth of the table turns it into a success. */
  lemma {:induction false} RefusalIsFinal<C>(table: Table<C>, later: Table<C>, offers: seq<Offer<C>>, digest: C -> int)
    requires Grows(table, later) && AllRecorded(table, offers, digest).Err?
    ensures AllRecorded(later, offers, digest).Err?
    decreases |offers|
  {
    if AllRecorded(later, offers, digest).Ok? {
      AllRecordedFacts(later, offers, digest);
      var final := AllRecorded(later, offers, digest).value;
      ConsistentOffersSucceed(table, final, offers, digest);
      assert false;
    }
  }

  /** Offers that all agree with one table that extends the present one are accepted. */
  lemma {:induction false} ConsistentOffersSucceed<C>(table: Table<C>, final: Table<C>, offers: seq<Offer<C>>,
                                                      digest: C -> int)
    requires Grows(table, final)
    requires forall o :: o in offers ==>
               o.wellFormed && IdOf(o, digest) in final && final[IdOf(o, digest)] == o.content
    ensures AllRecorded(table, offers, digest).Ok?
    decreases |offers|
  {
    if offers != [] {
      assert offers[0] in offers;
      assert forall o :: o in offers[1..] ==> o in offers;
      ConsistentOffersSucceed(Recorded(table, offers[0], digest).value, final, offers[1..], digest);
    }
  }

  lemma ServedGrows<C>(table: Table<C>, c: Call<C>, digest: C -> int)
    ensures Grows(table, Served(table, c, digest))
  {
    if Attempt(table, c, digest).Ok? {
      AllRecordedFacts(table, CallOffers(c), digest);
    }
  }

  /** Tables only grow, over any sequence of calls. */
  lemma {:induction false} RunGrows<C>(table: Table<C>, calls: seq<Call<C>>, digest: C -> int)
    ensures Grows(table, Run(table, calls, digest))
    decreases |calls|
  {
    if calls != [] {
      ServedGrows(table, calls[0], digest);
      RunGrows(Served(table, calls[0], digest), calls[1..], digest);
    }
  }

  /** A call that was once answered is answered the same way, and changes nothing, at any later time. */
  lemma CallReplays<C>(table: Table<C>, later: Table<C>, c: Call<C>, digest: C -> int)
    requires Grows(Served(table, c, digest), later)
    ensures Served(later, c, digest) == later
    ensures Attempt(later, c, digest).Ok? <==> Attempt(table, c, digest).Ok?
  {
    if Attempt(table, c, digest).Ok? {
      AllRecordedFacts(table, CallOffers(c), digest);
      AlreadyThere(later, CallOffers(c), digest);
    } else {
      RefusalIsFinal(table, later, CallOffers(c), digest);
    }
  }

  lemma {:induction false} ReplayOver<C>(table: Table<C>, later: Table<C>, calls: seq<Call<C>>, digest: C -> int)
    requires Grows(Run(table, calls, digest), later)
    ensures Run(later, calls, digest) == later
    decreases |calls|
  {
    if calls != [] {
      var next := Served(table, calls[0], digest);
      RunGrows(next, calls[1..], digest);
      CallReplays(table, later, calls[0], digest);
      ReplayOver(next, later, calls[1..], digest);
    }
  }

  /** Replaying a whole recorded history, refused calls included, changes nothing. */
  lemma ReplayChangesNothing<C>(table: Table<C>, calls: seq<Call<C>>, digest: C -> int)
    ensures Run(Run(table, calls, digest), calls, digest) == Run(table, calls, digest)
  {
    ReplayOver(table, Run(table, calls, digest), calls, digest);
  }

  // ---- The store --------------------------------------------------------------------------

  class Log<C(==)> {
    const digest: C -> int
    var rows: Table<C>

    constructor (digest: C -> int)
      ensures this.digest == digest && rows == map[]
    {
      this.digest, rows := digest, map[];
    }

    /** Append one row unless it is already there; reuse of an id for other content is an error. */
    method Record(o: Offer<C>) returns (r: Result<int, RecordError>)
      modifies this
      ensures match Recorded(old(rows), o, digest)
              case Ok(t) => r == Ok(IdOf(o, digest)) && rows == t
              case Err(e) => r == Err(e) && rows == old(rows)
      ensures r == Err(Malformed) <==> !o.wellFormed
      ensures r == Err(Conflict)
              <==> && o.wellFormed
                   && var id := if o.id.Some? then o.id.value else digest(o.content);
                      id in old(rows) && old(rows)[id] != o.content
    {
      if !o.wellFormed {
        return Err(Malformed);
      }
      var id := match o.id case None => digest(o.content) case Some(given) => given;
      if id in rows {
        if rows[id] != o.content {
          return Err(Conflict);
        }
        return Ok(id);
      }
      rows := rows[id := o.content];
      return Ok(id);
    }

    /** Append a batch, restoring the rows if any of them is refused. */
    method RecordBatch(offers: seq<Offer<C>>) returns (r: Result<(), RecordError>)
      modifies this
      ensures match AllRecorded(old(rows), offers, digest)
              case Ok(t) => r == Ok(()) && rows == t
              case Err(e) => r == Err(e) && rows == old(rows)
    {
      if offers == [] {
        return Ok(());
      }
      var saved := rows;
      var i := 0;
      assert offers[0..] == offers;
      while i < |offers|
        invariant 0 <= i <= |offers|
        invariant AllRecorded(rows, offers[i..], digest) == AllRecorded(saved, offers, digest)
      {
        assert offers[i..][1..] == offers[i + 1..];
        var one := Record(offers[i]);
        if one.Err? {
          rows := saved;
          return Err(one.error);
        }
        i := i + 1;
      }
      return Ok(());
    }
  }

  // ---- Overrides --------------------------------------------------------------------------

  datatype Override = Override(id: int, target: int, field: string, value: string,
                               createdAt: int, from: int, until: Option<int>)

  predicate InForce(o: Override, target: int, when: int) {
    o.target == target && o.from <= when && (o.until.Some? ==> when <= o.until.value)
  }

  /** Later in effect, then later created, then greater id: the first of two overrides prevails. */
  predicate Prevails(a: Override, b: Override) {
    || a.from > b.from
    || (a.from == b.from && a.createdAt > b.createdAt)
    || (a.from == b.from && a.createdAt == b.createdAt && a.id >= b.id)
  }

  function Candidates(rows: seq<Override>, target: int, when: int): (r: seq<Override>)
    ensures forall o :: o in r <==> o in rows && InForce(o, target, when)
  {
    if rows == [] then []
    else (if InForce(rows[0], target, when) then [rows[0]] else []) + Candidates(rows[1..], target, when)
  }

  /** The value of a field is that of the prevailing override in force. */
  ghost predicate Decides(rows: seq<Override>, target: int, when: int, o: Override) {
    && o in rows && InForce(o, target, when)
    && forall x :: x in rows && InForce(x, target, when) && x.field == o.field ==> Prevails(o, x)
  }

  ghost predicate UniqueIds(rows: seq<Override>) {
    forall a, b :: a in rows && b in rows && a.id == b.id ==> a == b
  }

  /** The first override of a field in a list. */
  function First(s: seq<Override>, field: string): Option<Override> {
    if s == [] then None else if s[0].field == field then Some(s[0]) else First(s[1..], field)
  }

  lemma {:induction false} FirstSnoc(s: seq<Override>, x: Override, field: string)
    ensures First(s + [x], field)
            == if First(s, field).Some? then First(s, field) else if x.field == field then Some(x) else None
  {
    if s != [] {
      FirstSnoc(s[1..], x, field);
      assert (s + [x])[1..] == s[1..] + [x];
    }
  }

  /** In a list from most to least recent the first override of a field prevails over the others. */
  lemma {:induction false} FirstPrevails(s: seq<Override>, field: string)
    requires SortedBy(Prevails, s)
    ensures First(s, field).None? <==> forall x :: x in s ==> x.field != field
    ensures First(s, field).Some? ==>
              && First(s, field).value in s && First(s, field).value.field == field
              && forall x :: x in s && x.field == field ==> Prevails(First(s, field).value, x)
  {
    if s != [] {
      FirstPrevails(s[1..], field);
      assert s == [s[0]] + s[1..];
      forall x | x in s ensures Prevails(s[0], x) {
        var j :| 0 <= j < |s| && s[j] == x;
      }
    }
  }

  lemma FirstDecides(rows: seq<Override>, target: int, when: int, ordered: seq<Override>, field: string)
    requires SortedBy(Prevails, ordered)
    requires forall o :: o in ordered <==> o in rows && InForce(o, target, when)
    ensures First(ordered, field).Some? <==> exists o :: o in rows && InForce(o, target, when) && o.field == field
    ensures First(ordered, field).Some? ==>
              Decides(rows, target, when, First(ordered, field).value) && First(ordered, field).value.field == field
  {
    FirstPrevails(ordered, field);
  }

  lemma EveryFieldDecided(rows: seq<Override>, target: int, when: int, ordered: seq<Override>)
    requires SortedBy(Prevails, ordered)
    requires forall o :: o in ordered <==> o in rows && InForce(o, target, when)
    ensures forall f :: First(ordered, f).Some? <==>
              exists o :: o in rows && InForce(o, target, when) && o.field == f
    ensures forall f :: First(ordered, f).Some? ==>
              Decides(rows, target, when, First(ordered, f).value) && First(ordered, f).value.field == f
  {
    forall f
      ensures First(ordered, f).Some? <==> exists o :: o in rows && InForce(o, target, when) && o.field == f
      ensures First(ordered, f).Some? ==>
                Decides(rows, target, when, First(ordered, f).value) && First(ordered, f).value.field == f
    {
      FirstDecides(rows, target, when, ordered, f);
    }
  }

  lemma NextPrefix(ordered: seq<Override>, k: nat)
    requires k < |ordered|
    ensures forall f :: First(ordered[..k + 1], f)
              == if First(ordered[..k], f).Some? then First(ordered[..k], f)
                 else if ordered[k].field == f then Some(ordered[k]) else None
  {
    assert ordered[..k + 1] == ordered[..k] + [ordered[k]];
    forall f ensures First(ordered[..k + 1], f)
              == if First(ordered[..k], f).Some? then First(ordered[..k], f)
                 else if ordered[k].field == f then Some(ordered[k]) else None
    {
      FirstSnoc(ordered[..k], ordered[k], f);
    }
  }

  /** First wins in a scan from the most to the least recent override. */
  method CurrentOverrides(rows: seq<Override>, target: int, when: int) returns (result: map<string, string>)
    ensures Resolution(rows, target, when, result)
  {
    var ordered := Sort(Prevails, Candidates(rows, target, when));
    SortSorted(Prevails, Candidates(rows, target, when));
    MultisetMembers(ordered, Candidates(rows, target, when));
    result := map[];
    for k := 0 to |ordered|
      invariant forall f :: f in result <==> First(ordered[..k], f).Some?
      invariant forall f :: f in result ==> result[f] == First(ordered[..k], f).value.value
    {
      NextPrefix(ordered, k);
      if ordered[k].field !in result {
        result := result[ordered[k].field := ordered[k].value];
      }
    }
    assert ordered[..|ordered|] == ordered;
    EveryFieldDecided(rows, target, when, ordered);
  }

  /** Which override decides a field does not depend on the order of insertion, and with unique ids
      there is only one. */
  lemma DecisionIsUnique(rows: seq<Override>, rows': seq<Override>, target: int, when: int, a: Override, b: Override)
    requires multiset(rows) == multiset(rows') && UniqueIds(rows)
    requires Decides(rows, target, when, a) && Decides(rows', target, when, b) && a.field == b.field
    ensures a == b
  {
    MultisetMembers(rows, rows');
    assert Prevails(a, b) && Prevails(b, a);
  }

  /** Resolved values are those of the prevailing overrides in force, for every field that has one. */
  ghost predicate Resolution(rows: seq<Override>, target: int, when: int, result: map<string, string>) {
    && (forall f :: f in result <==> exists o :: o in rows && InForce(o, target, when) && o.field == f)
    && forall f :: f in result ==>
         exists o :: Decides(rows, target, when, o) && o.field == f && o.value == result[f]
  }

  /** There is one resolution, whatever the order in which the overrides were inserted. */
  lemma ResolutionIgnoresInsertion(rows: seq<Override>, rows': seq<Override>, target: int, when: int,
                                   a: map<string, string>, b: map<string, string>)
    requires multiset(rows) == multiset(rows') && UniqueIds(rows)
    requires Resolution(rows, target, when, a) && Resolution(rows', target, when, b)
    ensures a == b
  {
    MultisetMembers(rows, rows');
    forall f | f in a ensures b[f] == a[f] {
      SameDecision(rows, rows', target, when, f, a[f], b[f]);
    }
  }

  lemma SameDecision(rows: seq<Override>, rows': seq<Override>, target: int, when: int, f: string, u: string, v: string)
    requires multiset(rows) == multiset(rows') && UniqueIds(rows)
    requires exists x :: Decides(rows, target, when, x) && x.field == f && x.value == u
    requires exists y :: Decides(rows', target, when, y) && y.field == f && y.value == v
    ensures u == v
  {
    var x :| Decides(rows, target, when, x) && x.field == f && x.value == u;
    var y :| Decides(rows', target, when, y) && y.field == f && y.value == v;
    DecisionIsUnique(rows, rows', target, when, x, y);
  }

  /** A field has a value exactly when some override of it is in force, and it is the value of the one that
      took effect last, among those the one created last, and among those the one with the greatest id. */
  lemma LatestOverrideWins(rows: seq<Override>, target: int, when: int, result: map<string, string>, f: string)
    requires Resolution(rows, target, when, result)
    ensures f in result
            <==> exists x :: x in rows && x.target == target && x.field == f
                             && x.from <= when && (x.until.Some? ==> when <= x.until.value)
    ensures f in result ==>
              exists o :: && o in rows && o.target == target && o.field == f && o.value == result[f]
                          && o.from <= when && (o.until.Some? ==> when <= o.until.value)
                          && forall x :: x in rows && x.target == target && x.field == f
                                         && x.from <= when && (x.until.Some? ==> when <= x.until.value) ==>
                               || x.from < o.from
                               || (x.from == o.from && x.createdAt < o.createdAt)
                               || (x.from == o.from && x.createdAt == o.createdAt && x.id <= o.id)
  {
    if f in result {
      var o :| Decides(rows, target, when, o) && o.field == f && o.value == result[f];
      forall x | x in rows && x.target == target && x.field == f
                 && x.from <= when && (x.until.Some? ==> when <= x.until.value)
        ensures || x.from < o.from
                || (x.from == o.from && x.createdAt < o.createdAt)
                || (x.from == o.from && x.createdAt == o.createdAt && x.id <= o.id)
      {
        assert InForce(x, target, when);
      }
    }
    if x :| x in rows && x.target == target && x.field == f
            && x.from <= when && (x.until.Some? ==> when <= x.until.value) {
      assert InForce(x, target, when);
    }
  }

  // ---- Overrides stamped by the clock -------------------------------------------------------

  datatype OverrideContent = OverrideContent(target: int, field: string, value: string, createdAt: int, from: int,
                                             until: Option<int>, reason: string)

  /** An override as a caller words it: without a creation time, the clock supplies one. */
  datatype OverrideCall = OverrideCall(id: Option<int>, target: int, field: string, value: string,
                                       createdAt: Option<int>, from: Option<int>, until: Option<int>, reason: string)

  function Stamped(c: OverrideCall, clock: int): OverrideContent {
    var created := if c.createdAt.Some? then c.createdAt.value else clock;
    OverrideContent(c.target, c.field, c.value, created, if c.from.Some? then c.from.value else created, c.until,
                    c.reason)
  }

  function OverrideOffer(c: OverrideCall, clock: int): Offer<OverrideContent> {
    var content := Stamped(c, clock);
    Offer(content.until.None? || content.until.value >= content.from, c.id, content)
  }

  function RowOf(id: int, c: OverrideContent): Override {
    Override(id, c.target, c.field, c.value, c.createdAt, c.from, c.until)
  }

  /** The row of an override that names neither a creation time nor a beginning, recorded at `clock`. */
  lemma StampedRow(c: OverrideCall, clock: int, id: int)
    requires c.createdAt.None? && c.from.None?
    ensures RowOf(id, Stamped(c, clock)) == Override(id, c.target, c.field, c.value, clock, clock, c.until)
    ensures OverrideOffer(c, clock).wellFormed <==> c.until.None? || clock <= c.until.value
  {
  }

  /** An override recorded now, with no time given, decides its field from now on until it ends, against
      everything recorded and in effect before. */
  lemma NewOverrideTakesEffect(rows: seq<Override>, c: OverrideCall, clock: int, id: int, when: int,
                               result: map<string, string>)
    requires c.createdAt.None? && c.from.None? && clock <= when && (c.until.Some? ==> when <= c.until.value)
    requires forall x :: x in rows ==> x.createdAt < clock && x.from <= clock
    requires Resolution(rows + [RowOf(id, Stamped(c, clock))], c.target, when, result)
    ensures c.field in result && result[c.field] == c.value
  {
    var row := RowOf(id, Stamped(c, clock));
    var all := rows + [row];
    StampedRow(c, clock, id);
    assert row in all && InForce(row, c.target, when);
    var o :| Decides(all, c.target, when, o) && o.field == c.field && o.value == result[c.field];
    assert Prevails(o, row);
    assert o == row || o in rows;
  }

  /** It does not change how anything is resolved as of an earlier moment, or of another target. */
  lemma NewOverrideLeavesThePast(rows: seq<Override>, c: OverrideCall, clock: int, id: int, target: int, when: int,
                                 result: map<string, string>)
    requires c.createdAt.None? && c.from.None? && (when < clock || target != c.target)
    ensures Resolution(rows + [RowOf(id, Stamped(c, clock))], target, when, result)
            <==> Resolution(rows, target, when, result)
  {
    var row := RowOf(id, Stamped(c, clock));
    var all := rows + [row];
    StampedRow(c, clock, id);
    assert !InForce(row, target, when);
    assert forall o :: o in all <==> o in rows || o == row;
    assert forall o :: Decides(all, target, when, o) <==> Decides(rows, target, when, o);
  }

  /** The row that a call would record at `clock` is in the table already, under its digest. */
  predicate Foreseen(table: Table<OverrideContent>, c: OverrideCall, clock: int, digest: OverrideContent -> int) {
    var o := OverrideOffer(c, clock);
    o.wellFormed && c.id.None? && digest(o.content) in table && table[digest(o.content)] == o.content
  }

  /** Repeating the very same override call later is a no-op exactly when the call names its creation
      time, or leaves even its id to the content and that later content was recorded before; otherwise
      the repetition is refused or appends another row. */
  lemma OverrideReplaysExactly(table: Table<OverrideContent>, c: OverrideCall, clock: int, later: int,
                               digest: OverrideContent -> int)
    requires clock != later && Recorded(table, OverrideOffer(c, clock), digest).Ok?
    ensures var t := Recorded(table, OverrideOffer(c, clock), digest).value;
            Recorded(t, OverrideOffer(c, later), digest) == Ok(t)
            <==> c.createdAt.Some? || Foreseen(table, c, later, digest)
  {
    if c.createdAt.Some? {
      assert Stamped(c, clock) == Stamped(c, later);
    } else {
      assert Stamped(c, clock).createdAt != Stamped(c, later).createdAt;
    }
  }

  /** A named override without a creation time: the repetition one tick later is refused. */
  lemma NamedOverrideConflicts(digest: OverrideContent -> int)
    ensures var c := OverrideCall(Some(1), 1, "phase", "test", None, None, None, "");
            var once := Recorded(map[], OverrideOffer(c, 0), digest);
            once.Ok? && Recorded(once.value, OverrideOffer(c, 1), digest) == Err(Conflict)
  {
    var c := OverrideCall(Some(1), 1, "phase", "test", None, None, None, "");
    assert Stamped(c, 0).createdAt != Stamped(c, 1).createdAt;
  }
}

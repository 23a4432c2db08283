/** The outbox table, its repository and one relay polling it. Several relays at
    once are in Pipeline. */
module Outbox {
  import opened Wrappers

  const BATCH_LIMIT: nat := 50

  /** What a row's insert fixes for good. */
  datatype Event = Event(id: nat, eventType: string, payload: string, createdAt: nat)

  datatype Status = Pending | Sent

  datatype Row = Row(event: Event, status: Status, retryCount: nat, sentAt: Option<nat>)

  /** The outbox_events table by primary key. */
  type Table = map<nat, Row>

  ghost predicate ValidTable(rows: Table) {
    forall id :: id in rows ==> rows[id].event.id == id
  }

  function PendingIds(rows: Table): set<nat> {
    set id | id in rows && rows[id].status == Pending
  }

  function MarkedSent(rows: Table, id: nat, now: nat): Table {
    if id in rows then rows[id := rows[id].(status := Sent, sentAt := Some(now))] else rows
  }

  function MarkedFailed(rows: Table, id: nat): Table {
    if id in rows then rows[id := rows[id].(retryCount := rows[id].retryCount + 1)] else rows
  }

  function Min(a: nat, b: nat): nat {
    if a < b then a else b
  }

  function Ids(es: seq<Event>): set<nat> {
    set e | e in es :: e.id
  }

  ghost predicate SortedDistinct(es: seq<Event>) {
    && (forall i, j :: 0 <= i < j < |es| ==> es[i].id != es[j].id)
    && (forall i, j :: 0 <= i < j < |es| ==> es[i].createdAt <= es[j].createdAt)
  }

  /** WHERE status = 'pending' ORDER BY created_at LIMIT n, ties in any order. */
  ghost predicate IsFetch(rows: Table, limit: nat, batch: seq<Event>) {
    && (forall e :: e in batch ==> e.id in PendingIds(rows) && rows[e.id].event == e)
    && SortedDistinct(batch)
    && |batch| == Min(limit, |PendingIds(rows)|)
    && (forall id, e :: id in PendingIds(rows) - Ids(batch) && e in batch ==>
          e.createdAt <= rows[id].event.createdAt)
  }

  /** How the relay fares with one row. */
  datatype Outcome =
    | PublishFails(failureMarked: bool)
    | PublishedUnmarked
    | PublishedMarked(at: nat)

  /** The table, and the publishes the broker accepted. */
  datatype Ledger = Ledger(rows: Table, published: seq<Event>)

  function RelayOne(s: Ledger, e: Event, o: Outcome): Ledger {
    match o
    case PublishFails(marked) => if marked then s.(rows := MarkedFailed(s.rows, e.id)) else s
    case PublishedUnmarked => s.(published := s.published + [e])
    case PublishedMarked(at) => s.(rows := MarkedSent(s.rows, e.id, at), published := s.published + [e])
  }

  /** The first `k` rows of a batch relayed. */
  function RelayUpto(s: Ledger, batch: seq<Event>, outs: nat -> Outcome, k: nat): Ledger
    requires k <= |batch|
  {
    if k == 0 then s else RelayOne(RelayUpto(s, batch, outs, k - 1), batch[k - 1], outs(k - 1))
  }

  datatype Step =
    | Poll(batch: seq<Event>, outs: nat -> Outcome)
    | FailedPoll
    | Insert(event: Event)

  ghost predicate CanStep(s: Ledger, a: Step) {
    match a
    case Poll(batch, _) => IsFetch(s.rows, BATCH_LIMIT, batch)
    case FailedPoll => true
    case Insert(e) => e.id !in s.rows
  }

  function Apply(s: Ledger, a: Step): Ledger {
    match a
    case Poll(batch, outs) => RelayUpto(s, batch, outs, |batch|)
    case FailedPoll => s
    case Insert(e) => s.(rows := s.rows[e.id := Row(e, Pending, 0, None)])
  }

  function After(s: Ledger, steps: seq<Step>): Ledger {
    if steps == [] then s else Apply(After(s, steps[..|steps| - 1]), steps[|steps| - 1])
  }

  ghost predicate CanRun(s: Ledger, steps: seq<Step>) {
    steps != [] ==>
      CanRun(s, steps[..|steps| - 1]) && CanStep(After(s, steps[..|steps| - 1]), steps[|steps| - 1])
  }

  // ----- What becomes of each row -----

  /** What the relay met with on the row, in the order of its attempts. */
  function FatesIn(batch: seq<Event>, outs: nat -> Outcome, k: nat, id: nat): seq<Outcome>
    requires k <= |batch|
  {
    if k == 0 then [] else FatesIn(batch, outs, k - 1, id) + if batch[k - 1].id == id then [outs(k - 1)] else []
  }

  function Fates(steps: seq<Step>, id: nat): seq<Outcome> {
    if steps == [] then []
    else
      var last := steps[|steps| - 1];
      Fates(steps[..|steps| - 1], id) + if last.Poll? then FatesIn(last.batch, last.outs, |last.batch|, id) else []
  }

  function Count(fates: seq<Outcome>, o: Outcome): nat {
    if fates == [] then 0 else Count(fates[..|fates| - 1], o) + if fates[|fates| - 1] == o then 1 else 0
  }

  /** The attempts end with a publish that was marked. */
  predicate EndsMarked(fates: seq<Outcome>) {
    fates != [] && fates[|fates| - 1].PublishedMarked?
  }

  /** From the row `base`, after these attempts: one retry counted for each failed publish
      that could be marked; one publish for each failed MarkSent, and one more if the
      row was marked sent, which then was the last attempt and gave the time. */
  ghost predicate Accounted(s: Ledger, id: nat, base: Row, fates: seq<Outcome>)
    requires id in s.rows
  {
    var row := s.rows[id];
    && row.event == base.event
    && row.retryCount == base.retryCount + Count(fates, PublishFails(true))
    && multiset(s.published)[row.event] == Count(fates, PublishedUnmarked) + (if EndsMarked(fates) then 1 else 0)
    && (row.status, row.sentAt) ==
         (if EndsMarked(fates) then (Sent, Some(fates[|fates| - 1].at)) else (base.status, base.sentAt))
    && forall i :: 0 <= i < |fates| - 1 ==> !fates[i].PublishedMarked?
  }

  /** The row as it was in the table `rows`, or as it was inserted since. */
  function Base(rows: Table, s: Ledger, id: nat): Row
    requires id in s.rows
  {
    if id in rows then rows[id] else Row(s.rows[id].event, Pending, 0, None)
  }

  ghost predicate RowAccount(rows: Table, s: Ledger, id: nat, fates: seq<Outcome>) {
    && ValidTable(s.rows)
    && if id in s.rows then Accounted(s, id, Base(rows, s, id), fates)
       else id !in rows && fates == [] && forall e :: e in s.published ==> e.id != id
  }

  lemma CountOneMore(fates: seq<Outcome>, o: Outcome, x: Outcome)
    ensures Count(fates + [x], o) == Count(fates, o) + if x == o then 1 else 0
  {
    assert (fates + [x])[..|fates|] == fates;
  }

  lemma OwnAttempt(rows: Table, s: Ledger, fates: seq<Outcome>, e: Event, o: Outcome)
    requires RowAccount(rows, s, e.id, fates) && e.id in PendingIds(s.rows) && s.rows[e.id].event == e
    ensures RowAccount(rows, RelayOne(s, e, o), e.id, fates + [o])
  {
    CountOneMore(fates, PublishFails(true), o);
    CountOneMore(fates, PublishedUnmarked, o);
    assert !EndsMarked(fates);
    assert Base(rows, RelayOne(s, e, o), e.id) == Base(rows, s, e.id);
    var so := fates + [o];
    assert forall i :: 0 <= i < |so| - 1 ==> so[i] == fates[i];
  }

  lemma OtherAttempt(rows: Table, s: Ledger, id: nat, fates: seq<Outcome>, e: Event, o: Outcome)
    requires RowAccount(rows, s, id, fates) && e.id in PendingIds(s.rows) && s.rows[e.id].event == e && id != e.id
    ensures RowAccount(rows, RelayOne(s, e, o), id, fates)
  {
    var s' := RelayOne(s, e, o);
    if id in s.rows {
      assert s.rows[id].event != e && s'.rows[id] == s.rows[id];
      assert multiset(s'.published)[s.rows[id].event] == multiset(s.published)[s.rows[id].event];
    }
  }

  lemma AttemptAccounted(rows: Table, s: Ledger, id: nat, fates: seq<Outcome>, e: Event, o: Outcome)
    requires RowAccount(rows, s, id, fates) && e.id in PendingIds(s.rows) && s.rows[e.id].event == e
    ensures RowAccount(rows, RelayOne(s, e, o), id, fates + if e.id == id then [o] else [])
  {
    if e.id == id {
      OwnAttempt(rows, s, fates, e, o);
    } else {
      OtherAttempt(rows, s, id, fates, e, o);
      assert fates + [] == fates;
    }
  }

  lemma Reassociate(a: seq<Outcome>, b: seq<Outcome>, c: seq<Outcome>)
    ensures (a + b) + c == a + (b + c)
  {
  }

  lemma {:induction false} RestStillPends(s: Ledger, batch: seq<Event>, outs: nat -> Outcome, k: nat)
    requires k <= |batch| && SortedDistinct(batch)
    requires forall j :: 0 <= j < |batch| ==> batch[j].id in PendingIds(s.rows) && s.rows[batch[j].id].event == batch[j]
    ensures var s' := RelayUpto(s, batch, outs, k);
            forall j :: k <= j < |batch| ==>
              batch[j].id in PendingIds(s'.rows) && s'.rows[batch[j].id].event == batch[j]
  {
    if k > 0 {
      RestStillPends(s, batch, outs, k - 1);
      assert forall j :: k <= j < |batch| ==> batch[j].id != batch[k - 1].id;
    }
  }

  lemma {:induction false} BatchAccounted(rows: Table, s: Ledger, id: nat, fates: seq<Outcome>,
                                          batch: seq<Event>, outs: nat -> Outcome, k: nat)
    requires RowAccount(rows, s, id, fates) && k <= |batch| && SortedDistinct(batch)
    requires forall j :: 0 <= j < |batch| ==> batch[j].id in PendingIds(s.rows) && s.rows[batch[j].id].event == batch[j]
    ensures RowAccount(rows, RelayUpto(s, batch, outs, k), id, fates + FatesIn(batch, outs, k, id))
  {
    if k == 0 {
      assert fates + [] == fates;
    } else {
      BatchAccounted(rows, s, id, fates, batch, outs, k - 1);
      RestStillPends(s, batch, outs, k - 1);
      var so, own := fates + FatesIn(batch, outs, k - 1, id), batch[k - 1].id == id;
      AttemptAccounted(rows, RelayUpto(s, batch, outs, k - 1), id, so, batch[k - 1], outs(k - 1));
      Reassociate(fates, FatesIn(batch, outs, k - 1, id), if own then [outs(k - 1)] else []);
    }
  }

  lemma InsertAccounted(rows: Table, s: Ledger, id: nat, fates: seq<Outcome>, e: Event)
    requires RowAccount(rows, s, id, fates) && e.id !in s.rows
    requires forall x :: x in s.published ==> x.id in s.rows
    ensures RowAccount(rows, Apply(s, Insert(e)), id, fates)
  {
    if e.id == id {
      assert e !in s.published;
    }
  }

  lemma {:induction false} PublishedRows(rows: Table, steps: seq<Step>)
    requires ValidTable(rows) && CanRun(Ledger(rows, []), steps)
    ensures var s := After(Ledger(rows, []), steps);
            ValidTable(s.rows) && forall x :: x in s.published ==> x.id in s.rows
  {
    if steps != [] {
      PublishedRows(rows, steps[..|steps| - 1]);
      var s, last := After(Ledger(rows, []), steps[..|steps| - 1]), steps[|steps| - 1];
      if last.Poll? {
        BatchRows(s, last.batch, last.outs, |last.batch|);
      }
    }
  }

  lemma {:induction false} BatchRows(s: Ledger, batch: seq<Event>, outs: nat -> Outcome, k: nat)
    requires ValidTable(s.rows) && k <= |batch| && forall e :: e in batch ==> e.id in s.rows
    requires forall x :: x in s.published ==> x.id in s.rows
    ensures var s' := RelayUpto(s, batch, outs, k);
            && ValidTable(s'.rows) && s'.rows.Keys == s.rows.Keys
            && forall x :: x in s'.published ==> x.id in s'.rows
  {
    if k > 0 {
      BatchRows(s, batch, outs, k - 1);
    }
  }

  lemma {:induction false} RunAccounted(rows: Table, steps: seq<Step>, id: nat)
    requires ValidTable(rows) && CanRun(Ledger(rows, []), steps)
    ensures RowAccount(rows, After(Ledger(rows, []), steps), id, Fates(steps, id))
  {
    if steps != [] {
      var before, last := steps[..|steps| - 1], steps[|steps| - 1];
      var s, fates := After(Ledger(rows, []), before), Fates(before, id);
      RunAccounted(rows, before, id);
      if last.Poll? {
        BatchAccounted(rows, s, id, fates, last.batch, last.outs, |last.batch|);
      } else {
        assert fates + [] == fates;
        if last.Insert? {
          PublishedRows(rows, before);
          InsertAccounted(rows, s, id, fates, last.event);
        }
      }
    }
  }

  /** With a single relay, from any table, with any failures and new rows arriving
      throughout, what the relay met with on a row accounts for all that became of it:
      how often it was published, its retry count, its status and when it was sent. */
  lemma PublishCounts(rows: Table, steps: seq<Step>, id: nat)
    requires ValidTable(rows) && CanRun(Ledger(rows, []), steps)
    requires id in After(Ledger(rows, []), steps).rows
    ensures var s := After(Ledger(rows, []), steps);
            Accounted(s, id, Base(rows, s, id), Fates(steps, id))
  {
    RunAccounted(rows, steps, id);
  }

  // ----- Draining -----

  ghost predicate Smooth(steps: seq<Step>) {
    forall a :: a in steps ==> a.Poll? && forall k :: a.outs(k).PublishedMarked?
  }

  lemma {:induction false} DistinctIds(es: seq<Event>)
    requires forall i, j :: 0 <= i < j < |es| ==> es[i].id != es[j].id
    ensures |Ids(es)| == |es|
  {
    if es != [] {
      var front, last := es[..|es| - 1], es[|es| - 1];
      DistinctIds(front);
      assert forall e :: e in es <==> e in front || e == last;
      assert Ids(es) == Ids(front) + {last.id};
      assert last.id !in Ids(front);
    }
  }

  lemma {:induction false} SmoothBatch(s: Ledger, batch: seq<Event>, outs: nat -> Outcome, k: nat)
    requires k <= |batch| && forall j :: outs(j).PublishedMarked?
    ensures var s' := RelayUpto(s, batch, outs, k);
            && s'.published == s.published + batch[..k]
            && s'.rows.Keys == s.rows.Keys
            && (forall id :: id in s.rows ==> s'.rows[id].event == s.rows[id].event)
            && PendingIds(s'.rows) == PendingIds(s.rows) - Ids(batch[..k])
  {
    if k > 0 {
      SmoothBatch(s, batch, outs, k - 1);
      assert batch[..k] == batch[..k - 1] + [batch[k - 1]];
      assert Ids(batch[..k]) == Ids(batch[..k - 1]) + {batch[k - 1].id};
      var m := RelayUpto(s, batch, outs, k - 1);
      assert PendingIds(MarkedSent(m.rows, batch[k - 1].id, outs(k - 1).at)) == PendingIds(m.rows) - {batch[k - 1].id};
    }
  }

  /** What was published came from the pending rows of the table `rows`; the others
      still pend and are no older. */
  ghost predicate OldestOut(rows: Table, s: Ledger) {
    && s.rows.Keys == rows.Keys
    && (forall id :: id in rows ==> s.rows[id].event == rows[id].event)
    && (forall e :: e in s.published ==> e.id in PendingIds(rows) && rows[e.id].event == e)
    && PendingIds(s.rows) == PendingIds(rows) - Ids(s.published)
    && (forall e, id :: e in s.published && id in PendingIds(s.rows) ==> e.createdAt <= rows[id].event.createdAt)
  }

  /** After `m` batches from the table `rows`: the oldest min(n, 50m) of its n pending
      rows are out, each once and oldest first, and the others still pend. */
  ghost predicate Drained(rows: Table, s: Ledger, m: nat) {
    SortedDistinct(s.published) && |s.published| == Min(|PendingIds(rows)|, 50 * m) && OldestOut(rows, s)
  }

  lemma OutAndPending(rows: Table, s: Ledger)
    requires SortedDistinct(s.published) && forall e :: e in s.published ==> e.id in PendingIds(rows)
    requires PendingIds(s.rows) == PendingIds(rows) - Ids(s.published)
    ensures |PendingIds(s.rows)| + |s.published| == |PendingIds(rows)|
  {
    DistinctIds(s.published);
    assert Ids(s.published) <= PendingIds(rows);
  }

  lemma ConcatSorted(a: seq<Event>, b: seq<Event>)
    requires SortedDistinct(a) && SortedDistinct(b)
    requires forall x, y :: x in a && y in b ==> x.id != y.id && x.createdAt <= y.createdAt
    ensures SortedDistinct(a + b)
  {
  }

  lemma {:induction false} FetchFollows(rows: Table, s: Ledger, batch: seq<Event>, m: nat)
    requires Drained(rows, s, m) && IsFetch(s.rows, BATCH_LIMIT, batch)
    ensures SortedDistinct(s.published + batch)
    ensures |s.published + batch| == Min(|PendingIds(rows)|, 50 * (m + 1))
  {
    forall x, y | x in s.published && y in batch ensures x.id != y.id && x.createdAt <= y.createdAt {
      assert x.id in Ids(s.published) && y.id in PendingIds(s.rows);
    }
    ConcatSorted(s.published, batch);
    OutAndPending(rows, s);
  }

  lemma OldestStillOut(rows: Table, s: Ledger, batch: seq<Event>, s': Ledger)
    requires OldestOut(rows, s) && s'.published == s.published + batch && s'.rows.Keys == rows.Keys
    requires forall id :: id in rows ==> s'.rows[id].event == s.rows[id].event
    requires PendingIds(s'.rows) == PendingIds(s.rows) - Ids(batch)
    requires forall e :: e in batch ==> e.id in PendingIds(s.rows) && s.rows[e.id].event == e
    requires forall id, e :: id in PendingIds(s.rows) - Ids(batch) && e in batch ==>
               e.createdAt <= s.rows[id].event.createdAt
    ensures OldestOut(rows, s')
  {
  }

  lemma {:induction false} DrainOneMore(rows: Table, s: Ledger, batch: seq<Event>, outs: nat -> Outcome, m: nat)
    requires Drained(rows, s, m) && IsFetch(s.rows, BATCH_LIMIT, batch) && forall k :: outs(k).PublishedMarked?
    ensures Drained(rows, Apply(s, Poll(batch, outs)), m + 1)
  {
    SmoothBatch(s, batch, outs, |batch|);
    assert batch[..|batch|] == batch;
    FetchFollows(rows, s, batch, m);
    OldestStillOut(rows, s, batch, Apply(s, Poll(batch, outs)));
  }

  lemma {:induction false} BatchesDrain(rows: Table, steps: seq<Step>)
    requires ValidTable(rows) && CanRun(Ledger(rows, []), steps) && Smooth(steps)
    ensures Drained(rows, After(Ledger(rows, []), steps), |steps|)
  {
    if steps == [] {
      assert Ids([]) == {};
    } else {
      var before, last := steps[..|steps| - 1], steps[|steps| - 1];
      BatchesDrain(rows, before);
      assert last in steps;
      DrainOneMore(rows, After(Ledger(rows, []), before), last.batch, last.outs, |before|);
    }
  }

  /** Draining. With one relay, no failure and no new commit, every pending row is
      published exactly once, oldest first, fifty to a batch; none is left once the
      batches hold them all. */
  lemma {:induction false} Draining(rows: Table, steps: seq<Step>)
    requires ValidTable(rows) && CanRun(Ledger(rows, []), steps) && Smooth(steps)
    ensures Drained(rows, After(Ledger(rows, []), steps), |steps|)
    ensures 50 * |steps| >= |PendingIds(rows)| ==>
              PendingIds(After(Ledger(rows, []), steps).rows) == {} &&
              Ids(After(Ledger(rows, []), steps).published) == PendingIds(rows)
  {
    var s' := After(Ledger(rows, []), steps);
    BatchesDrain(rows, steps);
    OutAndPending(rows, s');
    assert Ids(s'.published) <= PendingIds(rows);
  }

  // ----- The repository and the relay -----

  /** A fetch that still has the pending rows `rest` to choose from. */
  ghost predicate FetchedSoFar(rows: Table, rest: set<nat>, batch: seq<Event>) {
    && rest <= PendingIds(rows) && |batch| + |rest| == |PendingIds(rows)| && Ids(batch) == PendingIds(rows) - rest
    && (forall e :: e in batch ==> e.id in rows && rows[e.id].event == e)
    && SortedDistinct(batch)
    && (forall id, e :: id in rest && e in batch ==> e.createdAt <= rows[id].event.createdAt)
  }

  lemma AppendSorted(es: seq<Event>, e: Event)
    requires SortedDistinct(es) && forall x :: x in es ==> x.id != e.id && x.createdAt <= e.createdAt
    ensures SortedDistinct(es + [e]) && Ids(es + [e]) == Ids(es) + {e.id}
  {
  }

  lemma FetchOne(rows: Table, rest: set<nat>, batch: seq<Event>, id: nat)
    requires ValidTable(rows) && FetchedSoFar(rows, rest, batch) && id in rest
    requires forall x :: x in rest ==> rows[id].event.createdAt <= rows[x].event.createdAt
    ensures FetchedSoFar(rows, rest - {id}, batch + [rows[id].event])
  {
    var event := rows[id].event;
    forall e | e in batch ensures e.id != id {
      assert e.id in Ids(batch);
    }
    AppendSorted(batch, event);
    assert forall e :: e in batch + [event] <==> e in batch || e == event;
    assert Ids(batch + [event]) == PendingIds(rows) - (rest - {id});
  }

  class OutboxRepository {
    var rows: Table

    constructor ()
      ensures rows == map[]
    {
      rows := map[];
    }

    /** The id comes from the table's sequence. */
    method Create(id: nat, eventType: string, payload: string, now: nat)
      requires id !in rows
      modifies this
      ensures rows == old(rows)[id := Row(Event(id, eventType, payload, now), Pending, 0, None)]
    {
      rows := rows[id := Row(Event(id, eventType, payload, now), Pending, 0, None)];
    }

    method Oldest(ids: set<nat>) returns (id: nat)
      requires ids != {} && ids <= rows.Keys
      ensures id in ids && forall x :: x in ids ==> rows[id].event.createdAt <= rows[x].event.createdAt
    {
      id :| id in ids;
      var rest := ids - {id};
      while rest != {}
        invariant id in ids && rest <= ids
        invariant forall x :: x in ids - rest ==> rows[id].event.createdAt <= rows[x].event.createdAt
        decreases rest
      {
        var x :| x in rest;
        if rows[x].event.createdAt < rows[id].event.createdAt {
          id := x;
        }
        rest := rest - {x};
      }
    }

    method FetchPending(limit: nat) returns (batch: seq<Event>)
      requires ValidTable(rows)
      ensures IsFetch(rows, limit, batch)
    {
      batch := [];
      var rest := PendingIds(rows);
      while |batch| < limit && rest != {}
        invariant FetchedSoFar(rows, rest, batch) && |batch| <= limit
        decreases rest
      {
        var id := Oldest(rest);
        FetchOne(rows, rest, batch, id);
        batch, rest := batch + [rows[id].event], rest - {id};
      }
      assert forall e :: e in batch ==> e.id in Ids(batch);
    }

    method MarkSent(id: nat, now: nat)
      modifies this
      ensures rows == MarkedSent(old(rows), id, now)
    {
      if id in rows {
        rows := rows[id := rows[id].(status := Sent, sentAt := Some(now))];
      }
    }

    method MarkFailed(id: nat)
      modifies this
      ensures rows == MarkedFailed(old(rows), id)
    {
      if id in rows {
        rows := rows[id := rows[id].(retryCount := rows[id].retryCount + 1)];
      }
    }
  }

  class Relay {
    const outbox: OutboxRepository
    var published: seq<Event>

    constructor (outbox: OutboxRepository)
      ensures this.outbox == outbox && published == []
    {
      this.outbox := outbox;
      published := [];
    }

    ghost function Abstract(): Ledger
      reads this, outbox
    {
      Ledger(outbox.rows, published)
    }

    /** The body of the batch loop. */
    method RelayRow(e: Event, o: Outcome)
      modifies this, outbox
      ensures Abstract() == RelayOne(old(Abstract()), e, o)
    {
      match o
      case PublishFails(failureMarked) =>
        if failureMarked {
          outbox.MarkFailed(e.id);
        }
      case PublishedUnmarked =>
        published := published + [e];
      case PublishedMarked(at) =>
        published := published + [e];
        outbox.MarkSent(e.id, at);
    }

    method RelayBatch(fetchOk: bool, outs: nat -> Outcome) returns (ghost step: Step)
      requires ValidTable(outbox.rows)
      modifies this, outbox
      ensures CanStep(old(Abstract()), step) && Abstract() == Apply(old(Abstract()), step)
      ensures if fetchOk then step.Poll? && step.outs == outs else step == FailedPoll
    {
      if !fetchOk {
        return FailedPoll;
      }
      var batch := outbox.FetchPending(BATCH_LIMIT);
      for i := 0 to |batch|
        invariant Abstract() == RelayUpto(old(Abstract()), batch, outs, i)
      {
        RelayRow(batch[i], outs(i));
      }
      return Poll(batch, outs);
    }

    /** The ticker loop, for any number of ticks. */
    method Run(ticks: nat, fetchOk: nat -> bool, outs: nat -> nat -> Outcome) returns (ghost steps: seq<Step>)
      requires ValidTable(outbox.rows)
      modifies this, outbox
      ensures |steps| == ticks && CanRun(old(Abstract()), steps) && Abstract() == After(old(Abstract()), steps)
      ensures forall i :: 0 <= i < ticks ==>
                if fetchOk(i) then steps[i].Poll? && steps[i].outs == outs(i) else steps[i] == FailedPoll
    {
      steps := [];
      for i := 0 to ticks
        invariant |steps| == i && CanRun(old(Abstract()), steps) && Abstract() == After(old(Abstract()), steps)
        invariant ValidTable(outbox.rows)
        invariant forall j :: 0 <= j < i ==>
                    if fetchOk(j) then steps[j].Poll? && steps[j].outs == outs(j) else steps[j] == FailedPoll
      {
        ghost var before := Abstract();
        ghost var step := RelayBatch(fetchOk(i), outs(i));
        if step.Poll? {
          RelayKeepsValid(before, step.batch, step.outs, |step.batch|);
        }
        assert (steps + [step])[..i] == steps;
        steps := steps + [step];
      }
    }
  }

  lemma {:induction false} RelayKeepsValid(s: Ledger, batch: seq<Event>, outs: nat -> Outcome, k: nat)
    requires ValidTable(s.rows) && k <= |batch|
    ensures ValidTable(RelayUpto(s, batch, outs, k).rows)
  {
    if k > 0 {
      RelayKeepsValid(s, batch, outs, k - 1);
    }
  }
}

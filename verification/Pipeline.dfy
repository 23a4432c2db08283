/** The whole event path with any number of relays: committed outbox rows, relays
    polling and publishing one call at a time in every interleaving, and the broker
    with its consumers. Any publish, mark, ack or relay may fail at any point. */
module Pipeline {
  import opened Wrappers
  import opened Outbox
  import Broker
  import Consumers

  /** Where a relay stands in its batch: about to publish the first row left; told that
      the broker took it; or told that the publish failed. */
  datatype Pc =
    | Ready(todo: seq<Event>)
    | Confirmed(todo: seq<Event>)
    | Refused(todo: seq<Event>)

  /** A publish the exchange received, whether or not the relay learnt of it, and whether
      the row was already marked sent. */
  datatype Pub = Pub(relay: nat, event: Event, wasSent: bool)

  datatype State = State(rows: Table, relays: map<nat, Pc>, broker: Broker.State, pubs: seq<Pub>)

  datatype Action =
    | Commit(event: Event)
    | Fetch(relay: nat, batch: seq<Event>)
    | PublishOk(relay: nat)
    | PublishError(relay: nat, routed: bool)
    | MarkSent(relay: nat, ok: bool, at: nat)
    | MarkFailed(relay: nat, ok: bool)
    | Stop(relay: nat)
    | Deliver(index: nat, fate: Broker.Fate)

  ghost predicate Enabled(s: State, a: Action) {
    match a
    case Commit(e) => e.id !in s.rows
    case Fetch(r, batch) => r !in s.relays && IsFetch(s.rows, BATCH_LIMIT, batch)
    case PublishOk(r) => r in s.relays && s.relays[r].Ready? && s.relays[r].todo != []
    case PublishError(r, _) => r in s.relays && s.relays[r].Ready? && s.relays[r].todo != []
    case MarkSent(r, _, _) => r in s.relays && s.relays[r].Confirmed? && s.relays[r].todo != []
    case MarkFailed(r, _) => r in s.relays && s.relays[r].Refused? && s.relays[r].todo != []
    case Stop(r) => r in s.relays
    case Deliver(i, _) => i < |s.broker.queued|
  }

  function Routed(s: State, e: Event): Broker.State {
    Broker.Publish(s.broker, e.id, e.eventType, None)
  }

  predicate IsSent(s: State, id: nat) {
    id in s.rows && s.rows[id].status == Sent
  }

  /** The exchange receives the event from relay `r`. */
  function Received(s: State, r: nat, e: Event): State {
    s.(broker := Routed(s, e), pubs := s.pubs + [Pub(r, e, IsSent(s, e.id))])
  }

  ghost function Next(s: State, a: Action): State
    requires Enabled(s, a)
  {
    match a
    case Commit(e) => s.(rows := s.rows[e.id := Row(e, Pending, 0, None)])
    case Fetch(r, batch) => s.(relays := s.relays[r := Ready(batch)])
    case PublishOk(r) =>
      var todo := s.relays[r].todo;
      Received(s, r, todo[0]).(relays := s.relays[r := Confirmed(todo)])
    case PublishError(r, routed) =>
      var todo := s.relays[r].todo;
      (if routed then Received(s, r, todo[0]) else s).(relays := s.relays[r := Refused(todo)])
    case MarkSent(r, ok, at) =>
      var todo := s.relays[r].todo;
      s.(relays := s.relays[r := Ready(todo[1..])], rows := if ok then MarkedSent(s.rows, todo[0].id, at) else s.rows)
    case MarkFailed(r, ok) =>
      var todo := s.relays[r].todo;
      s.(relays := s.relays[r := Ready(todo[1..])], rows := if ok then MarkedFailed(s.rows, todo[0].id) else s.rows)
    case Stop(r) => s.(relays := s.relays - {r})
    case Deliver(i, f) => s.(broker := Broker.Deliver(s.broker, i, f))
  }

  ghost predicate Init(s: State) {
    s.rows == map[] && s.relays == map[] && s.broker == Broker.State([], [], {}, []) && s.pubs == []
  }

  ghost predicate Run(trace: seq<State>, actions: seq<Action>) {
    && |trace| == |actions| + 1 && Init(trace[0])
    && forall i :: 0 <= i < |actions| ==> Enabled(trace[i], actions[i]) && trace[i + 1] == Next(trace[i], actions[i])
  }

  // ----- One relay's rows -----

  /** The two calls the relay makes for the row it is at. */
  function CallsFor(r: nat, o: Outcome, routed: bool): (Action, Action) {
    match o
    case PublishFails(marked) => (PublishError(r, routed), MarkFailed(r, marked))
    case PublishedUnmarked => (PublishOk(r), MarkSent(r, false, 0))
    case PublishedMarked(at) => (PublishOk(r), MarkSent(r, true, at))
  }

  /** What Outbox does with a row is two of these actions, whatever the other relays and the
      consumers have done before; the exchange may get the event even of a publish
      that is reported as failed. */
  lemma RowIsTwoActions(s: State, r: nat, o: Outcome, routed: bool)
    requires r in s.relays && s.relays[r].Ready? && s.relays[r].todo != []
    ensures var (publish, mark) := CallsFor(r, o, routed);
            var e := s.relays[r].todo[0];
            Enabled(s, publish) &&
            var m := Next(s, publish);
            Enabled(m, mark) &&
            var s' := Next(m, mark);
            var received := routed || !o.PublishFails?;
            && s'.rows == RelayOne(Ledger(s.rows, []), e, o).rows
            && s'.relays == s.relays[r := Ready(s.relays[r].todo[1..])]
            && s'.broker == (if received then Broker.Publish(s.broker, e.id, e.eventType, None) else s.broker)
            && s'.pubs == s.pubs + (if received then [Pub(r, e, IsSent(s, e.id))] else [])
  {
    assert s.pubs + [] == s.pubs;
  }

  /** So is an insert, any fetch the repository may return, whoever else holds its rows,
      and a delivery of any waiting copy with any fate; a relay may stop at any point. */
  lemma OthersAreActions(s: State, r: nat, e: Event, batch: seq<Event>, i: nat, f: Broker.Fate)
    ensures Enabled(s, Commit(e)) <==> CanStep(Ledger(s.rows, []), Insert(e))
    ensures e.id !in s.rows ==>
              Enabled(s, Commit(e)) && Next(s, Commit(e)) == s.(rows := s.rows[e.id := Row(e, Pending, 0, None)])
    ensures r !in s.relays && IsFetch(s.rows, 50, batch) ==>
              Enabled(s, Fetch(r, batch)) && Next(s, Fetch(r, batch)) == s.(relays := s.relays[r := Ready(batch)])
    ensures i < |s.broker.queued| ==>
              Enabled(s, Deliver(i, f)) && Next(s, Deliver(i, f)) == s.(broker := Broker.Deliver(s.broker, i, f))
    ensures r in s.relays ==> Enabled(s, Stop(r)) && Next(s, Stop(r)) == s.(relays := s.relays - {r})
  {
  }

  // ----- Invariants -----

  /** The event is a committed row. */
  ghost predicate Committed(s: State, e: Event) {
    e.id in s.rows && s.rows[e.id].event == e
  }

  ghost predicate Published(s: State, e: Event) {
    exists p :: p in s.pubs && p.event == e
  }

  ghost predicate GoodRelay(s: State, r: nat) {
    r in s.relays ==>
      var pc := s.relays[r];
      && (forall e :: e in pc.todo ==> Committed(s, e))
      && (forall i, j :: 0 <= i < j < |pc.todo| ==> pc.todo[i].id != pc.todo[j].id)
      && (pc.Confirmed? ==> pc.todo != [] && Published(s, pc.todo[0]))
  }

  /** Each copy carries a committed row's id, under that row's event type. */
  ghost predicate FromRows(s: State, cs: seq<Broker.Copy>) {
    forall c :: c in cs ==> c.event in s.rows && c.key == s.rows[c.event].event.eventType
  }

  ghost predicate Inv(s: State) {
    && ValidTable(s.rows)
    && (forall r :: GoodRelay(s, r))
    && (forall p :: p in s.pubs ==> Committed(s, p.event))
    && (forall id :: id in s.rows && s.rows[id].status == Sent ==> Published(s, s.rows[id].event))
    && FromRows(s, s.broker.queued) && FromRows(s, s.broker.handled) && FromRows(s, s.broker.dead)
    && Consumers.WellRouted(s.broker)
  }

  /** Rows stay with what they were inserted with, and a sent row stays sent. */
  ghost predicate RowsKept(s: State, s': State) {
    forall id :: id in s.rows ==>
      && id in s'.rows && s'.rows[id].event == s.rows[id].event
      && (s.rows[id].status == Sent ==> s'.rows[id].status == Sent)
  }

  lemma StepKeepsRows(s: State, a: Action)
    requires Enabled(s, a)
    ensures RowsKept(s, Next(s, a))
    ensures ValidTable(s.rows) ==> ValidTable(Next(s, a).rows)
  {
  }

  lemma KeptTwice(s: State, s': State, s'': State)
    requires RowsKept(s, s') && RowsKept(s', s'')
    ensures RowsKept(s, s'')
  {
  }

  lemma StepKeepsRelay(s: State, a: Action, r: nat)
    requires Inv(s) && Enabled(s, a)
    ensures GoodRelay(Next(s, a), r)
  {
    var s' := Next(s, a);
    StepKeepsRows(s, a);
    assert GoodRelay(s, r);
    if r in s'.relays {
      if a.Fetch? && a.relay == r {
      } else {
        assert r in s.relays;
        var pc, pc' := s.relays[r], s'.relays[r];
        assert pc'.todo == pc.todo || (pc.todo != [] && pc'.todo == pc.todo[1..]);
        forall e | e in pc'.todo ensures Committed(s', e) {
          assert e in pc.todo;
        }
        if pc'.Confirmed? {
          if a.PublishOk? && a.relay == r {
            assert s'.pubs[|s.pubs|] in s'.pubs;
          } else {
            var p :| p in s.pubs && p.event == pc.todo[0];
            assert p in s'.pubs;
          }
        }
      }
    }
  }

  lemma RoutedFromRows(s: State, e: Event)
    requires FromRows(s, s.broker.queued) && Consumers.WellRouted(s.broker) && Committed(s, e)
    ensures FromRows(s, Routed(s, e).queued) && Consumers.WellRouted(Routed(s, e))
  {
    Consumers.PublishTracks(s.broker, e.id, e.eventType, None);
    forall c | c in Routed(s, e).queued ensures c.event in s.rows && c.key == s.rows[c.event].event.eventType {
      Consumers.CopiesReach(Broker.BoundQueues(e.eventType), e.id, e.eventType, None, c);
    }
  }

  lemma DeliveredFromRows(s: State, i: nat, f: Broker.Fate)
    requires i < |s.broker.queued|
    requires FromRows(s, s.broker.queued) && FromRows(s, s.broker.handled) && FromRows(s, s.broker.dead)
    ensures var b := Broker.Deliver(s.broker, i, f);
            FromRows(s, b.queued) && FromRows(s, b.handled) && FromRows(s, b.dead)
  {
    var b := Broker.Deliver(s.broker, i, f);
    var c := s.broker.queued[i];
    var kept := if f.settled then s.broker.queued[..i] + s.broker.queued[i + 1..] else s.broker.queued;
    assert c in s.broker.queued && forall x :: x in kept ==> x in s.broker.queued;
    forall x | x in b.queued ensures x.event in s.rows && x.key == s.rows[x.event].event.eventType {
      Consumers.CopiesReach(Broker.BoundQueues(c.key), c.event, c.key, Broker.RetryHeaders(c), x);
      assert x in kept || x in Broker.Retries(c);
    }
  }

  lemma StepKeepsBroker(s: State, a: Action)
    requires Inv(s) && Enabled(s, a)
    ensures var s' := Next(s, a);
            && FromRows(s', s'.broker.queued) && FromRows(s', s'.broker.handled) && FromRows(s', s'.broker.dead)
            && Consumers.WellRouted(s'.broker)
  {
    StepKeepsRows(s, a);
    if a.PublishOk? || a.PublishError? {
      assert GoodRelay(s, a.relay);
      RoutedFromRows(s, s.relays[a.relay].todo[0]);
    } else if a.Deliver? {
      DeliveredFromRows(s, a.index, a.fate);
      Consumers.DeliverKeepsRouted(s.broker, a.index, a.fate);
    }
  }

  lemma StepKeepsInv(s: State, a: Action)
    requires Inv(s) && Enabled(s, a)
    ensures Inv(Next(s, a))
  {
    var s' := Next(s, a);
    StepKeepsRows(s, a);
    StepKeepsBroker(s, a);
    forall r ensures GoodRelay(s', r) {
      StepKeepsRelay(s, a, r);
    }
    if a.PublishOk? || a.PublishError? || a.MarkSent? {
      assert GoodRelay(s, a.relay);
    }
    forall p | p in s'.pubs ensures Committed(s', p.event) {
      assert p in s.pubs || ((a.PublishOk? || a.PublishError?) && p.event == s.relays[a.relay].todo[0]);
      assert Committed(s, p.event);
    }
    forall id | id in s'.rows && s'.rows[id].status == Sent ensures Published(s', s'.rows[id].event) {
      var p :| p in s.pubs && p.event == s'.rows[id].event;
      assert p in s'.pubs;
    }
  }

  lemma {:induction false} RunKeepsInv(trace: seq<State>, actions: seq<Action>, n: nat)
    requires Run(trace, actions) && n < |trace|
    ensures Inv(trace[n])
  {
    if n > 0 {
      RunKeepsInv(trace, actions, n - 1);
      StepKeepsInv(trace[n - 1], actions[n - 1]);
    }
  }

  lemma RowsKeptAtOnce(s: State)
    ensures RowsKept(s, s)
  {
  }

  lemma RunStepKeepsRows(trace: seq<State>, actions: seq<Action>, i: nat)
    requires Run(trace, actions) && i < |actions|
    ensures RowsKept(trace[i], trace[i + 1])
  {
    StepKeepsRows(trace[i], actions[i]);
  }

  lemma {:induction false} KeptThroughout(trace: seq<State>, m: nat, n: nat)
    requires m <= n < |trace| && forall i :: 0 <= i < |trace| - 1 ==> RowsKept(trace[i], trace[i + 1])
    ensures RowsKept(trace[m], trace[n])
  {
    if m == n {
      RowsKeptAtOnce(trace[m]);
    } else {
      KeptThroughout(trace, m, n - 1);
      KeptTwice(trace[m], trace[n - 1], trace[n]);
    }
  }

  /** `sent` is never left and a row's content never changes, over any stretch of a run. */
  lemma SentIsNeverLeft(trace: seq<State>, actions: seq<Action>, m: nat, n: nat)
    requires Run(trace, actions) && m <= n < |trace|
    ensures RowsKept(trace[m], trace[n])
  {
    forall i | 0 <= i < |trace| - 1 ensures RowsKept(trace[i], trace[i + 1]) {
      RunStepKeepsRows(trace, actions, i);
    }
    KeptThroughout(trace, m, n);
  }

  // ----- No event is lost -----

  /** Once the event was published, the queue has it, has handled it, or has it in its DLQ. */
  ghost predicate TrackedOnce(s: State, id: nat, q: string) {
    forall p :: p in s.pubs && p.event.id == id && q in Broker.BoundQueues(p.event.eventType) ==>
      Consumers.Tracked(s.broker, id, q)
  }

  /** The queue's consumer never acknowledged a failure of the event whose republish was lost. */
  ghost predicate NeverDropped(trace: seq<State>, actions: seq<Action>, n: nat, id: nat, q: string)
    requires Run(trace, actions) && n < |trace|
  {
    forall i :: 0 <= i < n && actions[i].Deliver? ==>
      Enabled(trace[i], actions[i]) && !Consumers.Drops(trace[i].broker, actions[i].index, actions[i].fate, id, q)
  }

  lemma StepKeepsTracked(s: State, a: Action, id: nat, q: string)
    requires Inv(s) && Enabled(s, a) && TrackedOnce(s, id, q)
    requires a.Deliver? ==> !Consumers.Drops(s.broker, a.index, a.fate, id, q)
    ensures TrackedOnce(Next(s, a), id, q)
  {
    if a.PublishOk? || a.PublishError? {
      var e := s.relays[a.relay].todo[0];
      Consumers.PublishTracks(s.broker, e.id, e.eventType, None);
    } else if a.Deliver? && Consumers.Tracked(s.broker, id, q) {
      Consumers.DeliveryLosesExactly(s.broker, a.index, a.fate, id, q);
    }
  }

  lemma {:induction false} RunKeepsTracked(trace: seq<State>, actions: seq<Action>, n: nat, id: nat, q: string)
    requires Run(trace, actions) && n < |trace| && NeverDropped(trace, actions, n, id, q)
    ensures TrackedOnce(trace[n], id, q)
  {
    if n > 0 {
      RunKeepsTracked(trace, actions, n - 1, id, q);
      RunKeepsInv(trace, actions, n - 1);
      StepKeepsTracked(trace[n - 1], actions[n - 1], id, q);
    }
  }

  /** No event is lost, end to end: whatever relays, publishes, marks, handlers, acks and
      other republishes fail and wherever consumers die, every committed row is
      pending, or was published and each queue bound to its type has a copy waiting,
      has handled it, or has dead-lettered it, unless that queue's consumer
      acknowledged a failure of it whose republish was lost. */
  lemma NoEventLost(trace: seq<State>, actions: seq<Action>, n: nat, id: nat, q: string)
    requires Run(trace, actions) && n < |trace| && NeverDropped(trace, actions, n, id, q)
    requires id in trace[n].rows && q in Broker.BoundQueues(trace[n].rows[id].event.eventType)
    ensures var s := trace[n];
            s.rows[id].status == Pending || (Published(s, s.rows[id].event) && Consumers.Tracked(s.broker, id, q))
  {
    RunKeepsInv(trace, actions, n);
    RunKeepsTracked(trace, actions, n, id, q);
  }

  /** Nothing is invented: every copy the broker holds, has handed out or has
      dead-lettered comes from a committed row and carries its type. */
  lemma NothingInvented(trace: seq<State>, actions: seq<Action>, n: nat, c: Broker.Copy)
    requires Run(trace, actions) && n < |trace|
    requires c in trace[n].broker.queued + trace[n].broker.handled + trace[n].broker.dead
    ensures c.event in trace[n].rows && c.key == trace[n].rows[c.event].event.eventType
  {
    RunKeepsInv(trace, actions, n);
  }

  // ----- How often a sent row is published again -----

  /** The relay has yet to publish the row in its present batch. */
  ghost predicate StillToPublish(s: State, r: nat, e: Event) {
    && r in s.relays
    && e in (if s.relays[r].Ready? || s.relays[r].todo == [] then s.relays[r].todo else s.relays[r].todo[1..])
  }

  ghost predicate OnceMore(s: State, r: nat, e: Event) {
    var late := multiset(s.pubs)[Pub(r, e, true)];
    && (IsSent(s, e.id) ==> late + (if StillToPublish(s, r, e) then 1 else 0) <= 1)
    && (!IsSent(s, e.id) ==> late == 0)
  }

  /** The relay's own publish: the row leaves what it has yet to publish. */
  lemma PublishKeepsOnceMore(s: State, a: Action, r: nat, e: Event)
    requires Inv(s) && Enabled(s, a) && OnceMore(s, r, e) && (a.PublishOk? || a.PublishError?) && a.relay == r
    ensures OnceMore(Next(s, a), r, e)
  {
    var todo := s.relays[r].todo;
    assert GoodRelay(s, r) && todo[0] in todo;
    assert forall j :: 1 <= j < |todo| ==> todo[j].id != todo[0].id;
    assert e in todo <==> e == todo[0] || e in todo[1..];
  }

  /** Only a fetch gives a relay more to publish. */
  lemma StillToPublishShrinks(s: State, a: Action, r: nat, e: Event)
    requires Enabled(s, a) && !(a.Fetch? && a.relay == r) && StillToPublish(Next(s, a), r, e)
    ensures StillToPublish(s, r, e)
  {
    var todo, todo' := s.relays[r].todo, Next(s, a).relays[r].todo;
    assert todo' == todo || (todo != [] && todo' == todo[1..]);
    assert forall x :: x in todo' ==> x in todo;
  }

  lemma StepKeepsOnceMore(s: State, a: Action, r: nat, e: Event)
    requires Inv(s) && Enabled(s, a) && OnceMore(s, r, e)
    ensures OnceMore(Next(s, a), r, e)
  {
    StepKeepsRows(s, a);
    if a.Fetch? && a.relay == r {
      if e in a.batch { assert e.id in PendingIds(s.rows); }
    } else if (a.PublishOk? || a.PublishError?) && a.relay == r {
      PublishKeepsOnceMore(s, a, r, e);
    } else if StillToPublish(Next(s, a), r, e) {
      StillToPublishShrinks(s, a, r, e);
    }
  }

  lemma {:induction false} RunKeepsOnceMore(trace: seq<State>, actions: seq<Action>, n: nat, r: nat, e: Event)
    requires Run(trace, actions) && n < |trace|
    ensures OnceMore(trace[n], r, e)
  {
    if n > 0 {
      RunKeepsOnceMore(trace, actions, n - 1, r, e);
      RunKeepsInv(trace, actions, n - 1);
      StepKeepsOnceMore(trace[n - 1], actions[n - 1], r, e);
    }
  }

  /** With any number of relays, the exchange receives a row already marked sent at most
      once more from each of them, publishes reported as failed included. */
  lemma AtMostOnceMore(trace: seq<State>, actions: seq<Action>, n: nat, r: nat, e: Event)
    requires Run(trace, actions) && n < |trace|
    ensures multiset(trace[n].pubs)[Pub(r, e, true)] <= 1
  {
    RunKeepsOnceMore(trace, actions, n, r, e);
  }

  /** Two relays fetch the same row; the second publishes it when the first has marked it. */
  function Twice(e: Event, confirmed: bool): seq<Action> {
    [Commit(e), Fetch(0, [e]), Fetch(1, [e]), PublishOk(0), MarkSent(0, true, 0),
     if confirmed then PublishOk(1) else PublishError(1, true), Stop(1)]
  }

  function TwiceStates(e: Event, confirmed: bool): seq<State> {
    var none := Broker.State([], [], {}, []);
    var once := Broker.Publish(none, e.id, e.eventType, None);
    var twice := Broker.Publish(once, e.id, e.eventType, None);
    var pending, sent := map[e.id := Row(e, Pending, 0, None)], map[e.id := Row(e, Sent, 0, Some(0))];
    var both := [Pub(0, e, false), Pub(1, e, true)];
    [State(map[], map[], none, []),
     State(pending, map[], none, []),
     State(pending, map[0 := Ready([e])], none, []),
     State(pending, map[0 := Ready([e]), 1 := Ready([e])], none, []),
     State(pending, map[0 := Confirmed([e]), 1 := Ready([e])], once, [Pub(0, e, false)]),
     State(sent, map[0 := Ready([]), 1 := Ready([e])], once, [Pub(0, e, false)]),
     State(sent, map[0 := Ready([]), 1 := if confirmed then Confirmed([e]) else Refused([e])], twice, both),
     State(sent, map[0 := Ready([])], twice, both)]
  }

  lemma OnlyRowIsFetched(e: Event)
    ensures IsFetch(map[e.id := Row(e, Pending, 0, None)], BATCH_LIMIT, [e])
  {
    assert PendingIds(map[e.id := Row(e, Pending, 0, None)]) == {e.id};
    assert e in [e];
  }

  lemma TwiceBegins(e: Event, confirmed: bool, i: nat)
    requires i < 3
    ensures var s, a := TwiceStates(e, confirmed), Twice(e, confirmed)[i];
            Enabled(s[i], a) && s[i + 1] == Next(s[i], a)
  {
    if i > 0 { OnlyRowIsFetched(e); }
  }

  lemma TwiceGoesOn(e: Event, confirmed: bool, i: nat)
    requires 3 <= i < 5
    ensures var s, a := TwiceStates(e, confirmed), Twice(e, confirmed)[i];
            Enabled(s[i], a) && s[i + 1] == Next(s[i], a)
  {
    var s := TwiceStates(e, confirmed);
    assert [e][1..] == [];
    assert Next(s[i], Twice(e, confirmed)[i]).relays == s[i + 1].relays;
  }

  lemma TwiceEnds(e: Event, confirmed: bool, i: nat)
    requires 5 <= i < 7
    ensures var s, a := TwiceStates(e, confirmed), Twice(e, confirmed)[i];
            Enabled(s[i], a) && s[i + 1] == Next(s[i], a)
  {
    var s := TwiceStates(e, confirmed);
    assert Next(s[i], Twice(e, confirmed)[i]).relays == s[i + 1].relays;
  }

  /** The bound is met: with two relays every event can reach the exchange once more after
      it was marked sent, and be lost track of by its relay. */
  lemma OnceMoreIsReachable(e: Event, confirmed: bool)
    ensures var trace, actions := TwiceStates(e, confirmed), Twice(e, confirmed);
            && Run(trace, actions) && multiset(trace[7].pubs)[Pub(1, e, true)] == 1
            && IsSent(trace[7], e.id) && TimesPublished(trace[7].pubs, e.id) == 2
  {
    var trace, actions := TwiceStates(e, confirmed), Twice(e, confirmed);
    forall i | 0 <= i < |actions| ensures Enabled(trace[i], actions[i]) && trace[i + 1] == Next(trace[i], actions[i]) {
      if i < 3 {
        TwiceBegins(e, confirmed, i);
      } else if i < 5 {
        TwiceGoesOn(e, confirmed, i);
      } else {
        TwiceEnds(e, confirmed, i);
      }
    }
    var pubs := trace[7].pubs;
    assert pubs[..1] == [Pub(0, e, false)] && pubs[..1][..0] == [];
    assert TimesPublished(pubs[..1], e.id) == 1;
  }

  // ----- Retry amplification over whole runs -----

  /** How often the exchange received the row's event. */
  function TimesPublished(pubs: seq<Pub>, id: nat): nat {
    if pubs == [] then 0
    else TimesPublished(pubs[..|pubs| - 1], id) + if pubs[|pubs| - 1].event.id == id then 1 else 0
  }

  /** A delivery of the row's event whose ack or nack is lost. */
  predicate LosesSettlement(s: State, a: Action, id: nat) {
    a.Deliver? && !a.fate.settled && a.index < |s.broker.queued| && s.broker.queued[a.index].event == id
  }

  ghost function TimesUnsettled(trace: seq<State>, actions: seq<Action>, n: nat, id: nat): nat
    requires Run(trace, actions) && n < |trace|
  {
    if n == 0 then 0
    else TimesUnsettled(trace, actions, n - 1, id) + if LosesSettlement(trace[n - 1], actions[n - 1], id) then 1 else 0
  }

  /** Handler calls for the row made so far, and those its waiting copies can still cause. */
  ghost function Load(b: Broker.State, id: nat): nat {
    Broker.Sum(b.handled, Broker.Of(Some(id))) + Broker.Sum(b.queued, Broker.TotalCallWeight(Some(id)))
  }

  /** What waits for the row came from publishes under the type it has, if it is committed. */
  ghost predicate GenuineFor(s: State, id: nat, key: string) {
    && (id in s.rows ==> s.rows[id].event.eventType == key)
    && Broker.AllGenuine(s.broker.queued, id, key)
  }

  lemma PublishLoads(b: Broker.State, e: nat, k: string, id: nat, key: string, price: nat)
    requires e == id ==> k == key
    requires price == |Broker.BoundQueues(key)| * Broker.Geometric(|Broker.BoundQueues(key)|, 3)
    ensures Load(Broker.Publish(b, e, k, None), id) == Load(b, id) + if e == id then price else 0
  {
    var weight := Broker.TotalCallWeight(Some(id));
    Broker.SumConcat(b.queued, Broker.Fanout(e, k, None), weight);
    if e == id {
      Broker.FanoutTotalWeights(id, key);
    } else {
      Broker.SumOfEqualCopies(Broker.BoundQueues(k), e, k, None, weight, 0);
    }
  }

  lemma DeliveryLoads(b: Broker.State, i: nat, f: Broker.Fate, id: nat, key: string, unit: nat)
    requires i < |b.queued| && Broker.AllGenuine(b.queued, id, key)
    requires unit == Broker.Geometric(|Broker.BoundQueues(key)|, 3)
    ensures Load(Broker.Deliver(b, i, f), id) <=
            Load(b, id) + if !f.settled && b.queued[i].event == id then unit else 0
  {
    var weight := Broker.TotalCallWeight(Some(id));
    Broker.TotalCallWeightPays(Some(id));
    Broker.TotalWeightsCap(id, key);
    Broker.DeliverSpends(b, i, f, weight, Broker.Of(Some(id)));
    assert b.queued[i] in b.queued;
  }

  lemma StepKeepsGenuine(s: State, a: Action, id: nat, key: string)
    requires Inv(s) && Enabled(s, a) && GenuineFor(s, id, key)
    requires id in Next(s, a).rows ==> Next(s, a).rows[id].event.eventType == key
    ensures GenuineFor(Next(s, a), id, key)
  {
    if a.PublishOk? || a.PublishError? {
      var e := s.relays[a.relay].todo[0];
      assert GoodRelay(s, a.relay) && e in s.relays[a.relay].todo;
      Broker.PublishKeepsGenuine(s.broker, e.id, e.eventType, None, id, key);
    } else if a.Deliver? {
      Broker.DeliverKeepsGenuine(s.broker, a.index, a.fate, id, key);
    }
  }

  lemma StepLoads(s: State, a: Action, id: nat, key: string, price: nat, unit: nat)
    requires Inv(s) && Enabled(s, a) && GenuineFor(s, id, key)
    requires unit == Broker.Geometric(|Broker.BoundQueues(key)|, 3) && price == |Broker.BoundQueues(key)| * unit
    ensures var s' := Next(s, a);
            && TimesPublished(s.pubs, id) <= TimesPublished(s'.pubs, id) <= TimesPublished(s.pubs, id) + 1
            && Load(s'.broker, id) <=
                 Load(s.broker, id) + (if TimesPublished(s'.pubs, id) == TimesPublished(s.pubs, id) then 0 else price)
                 + (if LosesSettlement(s, a, id) then unit else 0)
  {
    var s' := Next(s, a);
    if a.PublishOk? || a.PublishError? {
      var e := s.relays[a.relay].todo[0];
      assert GoodRelay(s, a.relay) && e in s.relays[a.relay].todo;
      PublishLoads(s.broker, e.id, e.eventType, id, key, price);
      assert (s.pubs + [Pub(a.relay, e, IsSent(s, e.id))])[..|s.pubs|] == s.pubs;
    } else if a.Deliver? {
      DeliveryLoads(s.broker, a.index, a.fate, id, key, unit);
    }
  }

  /** A count that may go up by one, at its price. */
  lemma Counted(n: nat, n': nat, price: nat)
    requires n <= n' <= n + 1
    ensures price * n' == price * n + if n' == n then 0 else price
  {
  }

  /** What two such counts have paid for. */
  lemma Charged(load: nat, load': nat, p: nat, p': nat, u: nat, u': nat, price: nat, unit: nat)
    requires load <= price * p + unit * u && p <= p' <= p + 1 && u <= u' <= u + 1
    requires load' <= load + (if p' == p then 0 else price) + (if u' == u then 0 else unit)
    ensures load' <= price * p' + unit * u'
  {
    Counted(p, p', price);
    Counted(u, u', unit);
  }

  lemma {:induction false} RunLoads(trace: seq<State>, actions: seq<Action>, n: nat, id: nat, key: string,
                                    price: nat, unit: nat)
    requires Run(trace, actions) && n < |trace|
    requires id in trace[n].rows ==> trace[n].rows[id].event.eventType == key
    requires unit == Broker.Geometric(|Broker.BoundQueues(key)|, 3) && price == |Broker.BoundQueues(key)| * unit
    ensures GenuineFor(trace[n], id, key)
    ensures Load(trace[n].broker, id) <=
            price * TimesPublished(trace[n].pubs, id) + unit * TimesUnsettled(trace, actions, n, id)
  {
    if n > 0 {
      var s, a := trace[n - 1], actions[n - 1];
      RunStepKeepsRows(trace, actions, n - 1);
      RunLoads(trace, actions, n - 1, id, key, price, unit);
      RunKeepsInv(trace, actions, n - 1);
      StepKeepsGenuine(s, a, id, key);
      StepLoads(s, a, id, key, price, unit);
      Charged(Load(s.broker, id), Load(trace[n].broker, id), TimesPublished(s.pubs, id),
              TimesPublished(trace[n].pubs, id), TimesUnsettled(trace, actions, n - 1, id),
              TimesUnsettled(trace, actions, n, id), price, unit);
    }
  }

  /** Retry amplification, end to end: in every run, with any relays and failures, the
      handlers are called for a row bound to k queues at most k(1+k+k^2+k^3) times for
      each publish of it that the exchange received, and 1+k+k^2+k^3 times for each
      delivery of it whose settlement was lost. */
  lemma CallsInRun(trace: seq<State>, actions: seq<Action>, n: nat, id: nat)
    requires Run(trace, actions) && n < |trace| && id in trace[n].rows
    ensures var s := trace[n];
            var k := |Broker.BoundQueues(s.rows[id].event.eventType)|;
            Broker.Sum(s.broker.handled, Broker.Of(Some(id))) <=
              k * Broker.Geometric(k, 3) * TimesPublished(s.pubs, id) +
              Broker.Geometric(k, 3) * TimesUnsettled(trace, actions, n, id)
  {
    var key := trace[n].rows[id].event.eventType;
    var k := |Broker.BoundQueues(key)|;
    RunLoads(trace, actions, n, id, key, k * Broker.Geometric(k, 3), Broker.Geometric(k, 3));
  }
}
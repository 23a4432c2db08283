/** The RabbitMQ topology and the consumers' retry protocol. A failed delivery is
    republished to the exchange, so every queue bound to its routing key receives
    another copy; after the third retry it goes to the queue's own dead-letter queue. */
module Broker {
  import opened Wrappers

  const MAX_RETRIES: int := 3

  // ----- Topology -----

  datatype QueueDecl = QueueDecl(name: string, bindings: seq<string>)

  const QUEUES: seq<QueueDecl> := [
    QueueDecl("audit.queue", ["#"]),
    QueueDecl("notification.queue", ["user.created", "role.assigned"]),
    QueueDecl("analytics.queue", ["login.success", "login.failure", "user.created"])]

  /** Bindings pair a queue with a pattern; `deadLetterKey` is the routing key a
      queue's dead letters carry to the dead-letter exchange. */
  datatype Topology = Topology(queues: set<string>, bindings: set<(string, string)>,
                               deadLetterKey: map<string, string>, deadLetterBindings: set<(string, string)>)

  function DlqName(queue: string): string {
    queue + ".dlq"
  }

  /** Topic matching for the patterns the topology uses: `#` and literal keys. */
  predicate Matches(pattern: string, key: string) {
    pattern == "#" || pattern == key
  }

  /** The queues the events exchange copies a message to. */
  function RoutedTo(t: Topology, key: string): set<string> {
    set b | b in t.bindings && Matches(b.1, key) :: b.0
  }

  /** The dead-letter queues a rejected message of `queue` reaches. */
  function DeadLetteredTo(t: Topology, queue: string): set<string> {
    if queue !in t.deadLetterKey then {}
    else set b | b in t.deadLetterBindings && Matches(b.1, t.deadLetterKey[queue]) :: b.0
  }

  predicate Binds(d: QueueDecl, key: string) {
    exists j :: 0 <= j < |d.bindings| && Matches(d.bindings[j], key)
  }

  function IfBound(d: QueueDecl, key: string): seq<string> {
    if Binds(d, key) then [d.name] else []
  }

  function BoundAmong(decls: seq<QueueDecl>, key: string): seq<string> {
    if decls == [] then [] else IfBound(decls[0], key) + BoundAmong(decls[1..], key)
  }

  /** The queues bound to a routing key. */
  function BoundQueues(key: string): seq<string> {
    BoundAmong(QUEUES, key)
  }

  lemma {:induction false} BoundAmongNames(decls: seq<QueueDecl>, key: string, n: string)
    ensures n in BoundAmong(decls, key) <==> exists d :: d in decls && d.name == n && Binds(d, key)
  {
    if decls != [] {
      BoundAmongNames(decls[1..], key, n);
      assert forall d :: d in decls <==> d == decls[0] || d in decls[1..];
    }
  }

  ghost predicate Distinct(xs: seq<string>) {
    forall i, j :: 0 <= i < j < |xs| ==> xs[i] != xs[j]
  }

  lemma {:induction false} BoundAmongDistinct(decls: seq<QueueDecl>, key: string)
    requires forall i, j :: 0 <= i < j < |decls| ==> decls[i].name != decls[j].name
    ensures Distinct(BoundAmong(decls, key)) && |BoundAmong(decls, key)| <= |decls|
  {
    if decls != [] {
      BoundAmongDistinct(decls[1..], key);
      var names, rest := BoundAmong(decls, key), BoundAmong(decls[1..], key);
      BoundAmongNames(decls[1..], key, decls[0].name);
      assert decls[0].name !in rest;
      if Binds(decls[0], key) {
        assert forall j :: 1 <= j < |names| ==> names[j] == rest[j - 1] && rest[j - 1] in rest;
      }
    }
  }

  /** Every event reaches the audit queue, and no queue gets two copies. */
  lemma BoundQueuesDistinct(key: string)
    ensures Distinct(BoundQueues(key)) && 1 <= |BoundQueues(key)| <= 3 && "audit.queue" in BoundQueues(key)
  {
    assert QUEUES[0].name != QUEUES[1].name && QUEUES[1].name != QUEUES[2].name && QUEUES[0].name != QUEUES[2].name;
    BoundAmongDistinct(QUEUES, key);
    assert Matches(QUEUES[0].bindings[0], key);
    assert BoundQueues(key)[0] == QUEUES[0].name;
  }

  lemma BoundAmongThree(a: QueueDecl, b: QueueDecl, c: QueueDecl, key: string)
    ensures BoundAmong([a, b, c], key) == IfBound(a, key) + IfBound(b, key) + IfBound(c, key)
  {
    assert [a, b, c][1..] == [b, c] && [b, c][1..] == [c] && [c][1..] == [];
    assert BoundAmong([c], key) == IfBound(c, key);
    assert BoundAmong([b, c], key) == IfBound(b, key) + IfBound(c, key);
  }

  /** The events the service emits: every one is audited, a role assignment also notifies. */
  lemma ServiceEventsFanOut(key: string)
    requires key == "role.assigned" || key == "role.revoked" || key == "permission.attached"
    ensures BoundQueues(key) ==
            if key == "role.assigned" then ["audit.queue", "notification.queue"] else ["audit.queue"]
  {
    var audit, notification, analytics := QUEUES[0], QUEUES[1], QUEUES[2];
    BoundAmongThree(audit, notification, analytics, key);
    assert Matches(audit.bindings[0], key);
    assert Binds(notification, key) <==> key == "role.assigned" by {
      assert notification.bindings[1] == "role.assigned" && "user.created"[0] == 'u';
      assert key[0] != 'u' && (key == "role.assigned" ==> Matches(notification.bindings[1], key));
    }
    assert !Binds(analytics, key) by {
      assert key[0] != 'l' && key[0] != 'u';
    }
  }

  /** One of the bindings the set-up declares. */
  ghost predicate Declared(b: (string, string)) {
    exists d :: d in QUEUES && b.0 == d.name && b.1 in d.bindings
  }

  /** Nothing is bound that the set-up would not bind itself, and its queues, where they
      exist, were declared with the same arguments. */
  ghost predicate Ours(t: Topology) {
    && (forall b :: b in t.bindings ==> Declared(b))
    && (forall b :: b in t.deadLetterBindings ==> b.0 == b.1 && exists d :: d in QUEUES && b.0 == DlqName(d.name))
    && (forall d :: d in QUEUES && d.name in t.queues ==> d.name in t.deadLetterKey)
    && (forall n :: n in t.deadLetterKey ==> t.deadLetterKey[n] == DlqName(n))
  }

  /** The queue, its bindings, its dead-letter queue and that one's binding exist. */
  ghost predicate InPlace(t: Topology, d: QueueDecl) {
    && {d.name, DlqName(d.name)} <= t.queues && d.name in t.deadLetterKey
    && (DlqName(d.name), DlqName(d.name)) in t.deadLetterBindings
    && forall p :: p in d.bindings ==> (d.name, p) in t.bindings
  }

  ghost predicate Extends(t: Topology, t': Topology) {
    && t.queues <= t'.queues && t.bindings <= t'.bindings && t.deadLetterBindings <= t'.deadLetterBindings
    && t.deadLetterKey.Keys <= t'.deadLetterKey.Keys
  }

  lemma StaysInPlace(t: Topology, t': Topology, d: QueueDecl)
    requires InPlace(t, d) && Extends(t, t')
    ensures InPlace(t', d)
  {
  }

  /** Each queue has a dead-letter queue of its own. */
  lemma QueueNames()
    ensures |QUEUES| == 3
    ensures QUEUES[0].name == "audit.queue" && DlqName(QUEUES[0].name) == "audit.queue.dlq"
    ensures QUEUES[1].name == "notification.queue" && DlqName(QUEUES[1].name) == "notification.queue.dlq"
    ensures QUEUES[2].name == "analytics.queue" && DlqName(QUEUES[2].name) == "analytics.queue.dlq"
  {
  }

  /** The events of signing up and logging in. */
  lemma AuthEventsFanOut(key: string)
    requires key == "user.created" || key == "login.success" || key == "login.failure"
    ensures BoundQueues(key) ==
            ["audit.queue"] + (if key == "user.created" then ["notification.queue"] else []) + ["analytics.queue"]
  {
    var audit, notification, analytics := QUEUES[0], QUEUES[1], QUEUES[2];
    BoundAmongThree(audit, notification, analytics, key);
    assert Matches(audit.bindings[0], key);
    assert Binds(notification, key) <==> key == "user.created" by {
      assert notification.bindings[0] == "user.created" && "role.assigned"[0] == 'r';
      assert key == "user.created" || key[0] == 'l';
      assert key == "user.created" ==> Matches(notification.bindings[0], key);
    }
    assert Binds(analytics, key) by {
      assert analytics.bindings[0] == "login.success" && analytics.bindings[1] == "login.failure";
      var j := if key == "login.success" then 0 else if key == "login.failure" then 1 else 2;
      assert Matches(analytics.bindings[j], key);
    }
  }

  class Conn {
    var topology: Topology

    constructor ()
      ensures topology == Topology({}, {}, map[], {})
    {
      topology := Topology({}, {}, map[], {});
    }

    /** One queue with its bindings and its dead-letter queue. */
    method Declare(q: QueueDecl)
      requires Ours(topology) && q in QUEUES
      modifies this
      ensures Ours(topology) && Extends(old(topology), topology) && InPlace(topology, q)
    {
      var dlq := DlqName(q.name);
      topology := topology.(queues := topology.queues + {q.name},
                            deadLetterKey := topology.deadLetterKey[q.name := dlq]);
      ghost var before := topology;
      for j := 0 to |q.bindings|
        invariant topology == before.(bindings := topology.bindings) && before.bindings <= topology.bindings
        invariant forall b :: b in topology.bindings ==> Declared(b)
        invariant forall p :: p in q.bindings[..j] ==> (q.name, p) in topology.bindings
      {
        topology := topology.(bindings := topology.bindings + {(q.name, q.bindings[j])});
      }
      assert q.bindings[..|q.bindings|] == q.bindings;
      topology := topology.(queues := topology.queues + {dlq},
                            deadLetterBindings := topology.deadLetterBindings + {(dlq, dlq)});
      DlqsAreNoQueues(dlq, q);
    }

    /** Declares every queue, on an empty broker or on one where an earlier start or
        another replica has declared some of it already. Then an event reaches just the
        queues bound to its key, and a queue's dead letters reach its own dead-letter
        queue alone. */
    method SetupTopology()
      requires Ours(topology)
      modifies this
      ensures Ours(topology) && Extends(old(topology), topology)
      ensures forall d :: d in QUEUES ==> {d.name, DlqName(d.name)} <= topology.queues
      ensures forall key :: RoutedTo(topology, key) == set n | n in BoundQueues(key)
      ensures forall d :: d in QUEUES ==> DeadLetteredTo(topology, d.name) == {DlqName(d.name)}
    {
      for i := 0 to |QUEUES|
        invariant Ours(topology) && Extends(old(topology), topology)
        invariant forall j :: 0 <= j < i ==> InPlace(topology, QUEUES[j])
      {
        ghost var before := topology;
        Declare(QUEUES[i]);
        forall j | 0 <= j < i ensures InPlace(topology, QUEUES[j]) {
          StaysInPlace(before, topology, QUEUES[j]);
        }
      }
      SetUpRoutes(topology, QUEUES);
    }
  }

  lemma DlqLength(name: string)
    ensures |DlqName(name)| > 1
  {
  }

  /** No queue is named like a dead-letter queue. */
  lemma DlqsAreNoQueues(dlq: string, q: QueueDecl)
    requires q in QUEUES && dlq == DlqName(q.name)
    ensures forall d :: d in QUEUES ==> d.name != dlq
  {
    forall d | d in QUEUES ensures d.name[|d.name| - 1] == 'e' {
    }
    assert dlq[|dlq| - 1] == 'q';
  }

  lemma DlqAlone(t: Topology, d: QueueDecl)
    requires Ours(t) && InPlace(t, d)
    ensures DeadLetteredTo(t, d.name) == {DlqName(d.name)}
  {
    forall b | b in t.deadLetterBindings && Matches(b.1, t.deadLetterKey[d.name]) ensures b.0 == DlqName(d.name) {
      var x :| x in QUEUES && b.0 == DlqName(x.name);
      DlqLength(x.name);
    }
    assert (DlqName(d.name), DlqName(d.name)) in t.deadLetterBindings;
  }

  lemma RoutesAreBindings(t: Topology, decls: seq<QueueDecl>, key: string)
    requires forall b :: b in t.bindings <==> exists d :: d in decls && b.0 == d.name && b.1 in d.bindings
    ensures RoutedTo(t, key) == set n | n in BoundAmong(decls, key)
  {
    forall n ensures n in RoutedTo(t, key) <==> n in BoundAmong(decls, key) {
      BoundAmongNames(decls, key, n);
      if n in RoutedTo(t, key) {
        var b :| b in t.bindings && Matches(b.1, key) && b.0 == n;
        var d :| d in decls && b.0 == d.name && b.1 in d.bindings;
        var j :| 0 <= j < |d.bindings| && d.bindings[j] == b.1;
        assert Binds(d, key);
      }
      if n in BoundAmong(decls, key) {
        var d :| d in decls && d.name == n && Binds(d, key);
        var j :| 0 <= j < |d.bindings| && Matches(d.bindings[j], key);
        assert (n, d.bindings[j]) in t.bindings;
      }
    }
  }

  lemma SetUpRoutes(t: Topology, decls: seq<QueueDecl>)
    requires Ours(t) && decls == QUEUES && forall i :: 0 <= i < |decls| ==> InPlace(t, decls[i])
    ensures forall key :: RoutedTo(t, key) == set n | n in BoundAmong(decls, key)
    ensures forall d :: d in decls ==> {d.name, DlqName(d.name)} <= t.queues
    ensures forall d :: d in decls ==> DeadLetteredTo(t, d.name) == {DlqName(d.name)}
  {
    forall d | d in decls ensures InPlace(t, d) && DeadLetteredTo(t, d.name) == {DlqName(d.name)} {
      DlqAlone(t, d);
    }
    forall b | Declared(b) ensures b in t.bindings {
      var d :| d in decls && b.0 == d.name && b.1 in d.bindings;
      assert InPlace(t, d);
    }
    forall key ensures RoutedTo(t, key) == set n | n in BoundAmong(decls, key) {
      RoutesAreBindings(t, decls, key);
    }
  }

  // ----- Deliveries -----

  datatype HeaderValue = Int32(n: int) | OtherType

  /** `None` is a nil header table. */
  type Headers = Option<map<string, HeaderValue>>

  function HeaderRetryCount(h: Headers): int {
    if h.None? then 0
    else if "x-retry-count" in h.value && h.value["x-retry-count"].Int32? then h.value["x-retry-count"].n
    else 0
  }

  datatype Copy = Copy(event: nat, key: string, queue: string, headers: Headers)

  /** `handled` lists every handler call; `succeeded` the (event, queue) pairs whose
      handler has returned nil; `dead` what the dead-letter queues hold. */
  datatype State = State(queued: seq<Copy>, handled: seq<Copy>, succeeded: set<(nat, string)>, dead: seq<Copy>)

  /** How one delivery goes: what the handler returns, whether the republish (whose
      error is discarded) reaches the exchange, and whether the ack or nack does. */
  datatype Fate = Fate(handlerOk: bool, republished: bool, settled: bool)

  function CopiesTo(queues: seq<string>, event: nat, key: string, h: Headers): seq<Copy> {
    if queues == [] then [] else [Copy(event, key, queues[0], h)] + CopiesTo(queues[1..], event, key, h)
  }

  function Fanout(event: nat, key: string, h: Headers): seq<Copy> {
    CopiesTo(BoundQueues(key), event, key, h)
  }

  function Publish(s: State, event: nat, key: string, h: Headers): State {
    s.(queued := s.queued + Fanout(event, key, h))
  }

  predicate Retryable(c: Copy) {
    HeaderRetryCount(c.headers) < MAX_RETRIES
  }

  function RetryHeaders(c: Copy): Headers {
    Some(map["x-retry-count" := Int32(HeaderRetryCount(c.headers) + 1)])
  }

  function Retries(c: Copy): seq<Copy> {
    Fanout(c.event, c.key, RetryHeaders(c))
  }

  /** One turn of the consume loop, on the copy at position `i`. */
  function Deliver(s: State, i: nat, f: Fate): State
    requires i < |s.queued|
  {
    var c := s.queued[i];
    var rest := if f.settled then s.queued[..i] + s.queued[i + 1..] else s.queued;
    var called := s.(queued := rest, handled := s.handled + [c]);
    if f.handlerOk then called.(succeeded := s.succeeded + {(c.event, c.queue)})
    else if !Retryable(c) then called.(dead := s.dead + if f.settled then [c] else [])
    else if f.republished then Publish(called, c.event, c.key, RetryHeaders(c))
    else called
  }

  type Schedule = seq<(nat, Fate)>

  ghost predicate Possible(s: State, ds: Schedule)
    decreases |ds|
  {
    ds != [] ==> ds[0].0 < |s.queued| && Possible(Deliver(s, ds[0].0, ds[0].1), ds[1..])
  }

  ghost function After(s: State, ds: Schedule): State
    requires Possible(s, ds)
    decreases |ds|
  {
    if ds == [] then s else After(Deliver(s, ds[0].0, ds[0].1), ds[1..])
  }

  /** The copies a count or bound is about: of one event, or all. */
  predicate Watched(e: Option<nat>, c: Copy) {
    e == None || e == Some(c.event)
  }

  /** Every delivery of a watched copy fails, and its republish and settlement arrive;
      those of other copies go as they like. */
  ghost predicate AllFail(s: State, ds: Schedule, e: Option<nat>)
    requires Possible(s, ds)
    decreases |ds|
  {
    ds != [] ==>
      && (Watched(e, s.queued[ds[0].0]) ==> ds[0].1 == Fate(false, true, true))
      && AllFail(Deliver(s, ds[0].0, ds[0].1), ds[1..], e)
  }

  /** `f` summed over the deliveries whose ack or nack is lost, so that the copy is
      delivered again. */
  ghost function Redelivered(s: State, ds: Schedule, f: Copy -> nat): nat
    requires Possible(s, ds)
    decreases |ds|
  {
    if ds == [] then 0
    else
      (if ds[0].1.settled then 0 else f(s.queued[ds[0].0])) + Redelivered(Deliver(s, ds[0].0, ds[0].1), ds[1..], f)
  }

  // ----- Weighing the copies in flight -----

  function Sum(cs: seq<Copy>, f: Copy -> nat): nat {
    if cs == [] then 0 else f(cs[0]) + Sum(cs[1..], f)
  }

  lemma {:induction false} SumConcat(a: seq<Copy>, b: seq<Copy>, f: Copy -> nat)
    ensures Sum(a + b, f) == Sum(a, f) + Sum(b, f)
  {
    if a == [] {
      assert a + b == b;
    } else {
      assert (a + b)[1..] == a[1..] + b;
      SumConcat(a[1..], b, f);
    }
  }

  lemma SumOne(c: Copy, f: Copy -> nat)
    ensures Sum([c], f) == f(c)
  {
    assert [c][1..] == [];
  }

  lemma SumWithout(cs: seq<Copy>, i: nat, f: Copy -> nat)
    requires i < |cs|
    ensures Sum(cs, f) == Sum(cs[..i] + cs[i + 1..], f) + f(cs[i])
  {
    var before, c, after := cs[..i], cs[i], cs[i + 1..];
    assert cs == before + ([c] + after);
    SumConcat(before, [c] + after, f);
    SumConcat([c], after, f);
    SumOne(c, f);
    SumConcat(before, after, f);
  }

  /** `weight` pays for the handler call `cost` counts and for the copies a retry makes. */
  ghost predicate Pays(weight: Copy -> nat, cost: Copy -> nat) {
    forall c :: weight(c) == cost(c) + if Retryable(c) then Sum(Retries(c), weight) else 0
  }

  /** `weight` foretells what `cost` will count of the copies that end up dead. */
  ghost predicate Foretells(weight: Copy -> nat, cost: Copy -> nat) {
    forall c :: weight(c) == if Retryable(c) then Sum(Retries(c), weight) else cost(c)
  }

  /** A delivery raises calls made plus weight in flight by the copy's weight if its
      settlement is lost, and not at all otherwise. */
  lemma {:induction false} DeliverSpends(s: State, i: nat, f: Fate, weight: Copy -> nat, cost: Copy -> nat)
    requires i < |s.queued| && Pays(weight, cost)
    ensures var s', c := Deliver(s, i, f), s.queued[i];
            var before := Sum(s.handled, cost) + Sum(s.queued, weight);
            var after := Sum(s'.handled, cost) + Sum(s'.queued, weight);
            && after <= before + (if f.settled then 0 else weight(c))
            && (f == Fate(false, true, true) || weight(c) == 0 ==> after == before)
  {
    var c := s.queued[i];
    var rest := if f.settled then s.queued[..i] + s.queued[i + 1..] else s.queued;
    SumWithout(s.queued, i, weight);
    SumConcat(s.handled, [c], cost);
    SumOne(c, cost);
    SumConcat(rest, Retries(c), weight);
  }

  lemma DeliverForetold(s: State, i: nat, f: Fate, weight: Copy -> nat, cost: Copy -> nat)
    requires i < |s.queued| && Foretells(weight, cost)
    ensures var s', c := Deliver(s, i, f), s.queued[i];
            var before := Sum(s.dead, cost) + Sum(s.queued, weight);
            var after := Sum(s'.dead, cost) + Sum(s'.queued, weight);
            && after <= before + (if f.settled then 0 else weight(c))
            && (f == Fate(false, true, true) || weight(c) == 0 ==> after == before)
  {
    var c := s.queued[i];
    var rest := if f.settled then s.queued[..i] + s.queued[i + 1..] else s.queued;
    SumWithout(s.queued, i, weight);
    SumConcat(s.dead, [c], cost);
    SumOne(c, cost);
    SumConcat(rest, Retries(c), weight);
    assert s.dead + [] == s.dead;
  }

  /** The weight is all on watched copies. */
  ghost predicate OnlyOn(weight: Copy -> nat, e: Option<nat>) {
    forall c :: !Watched(e, c) ==> weight(c) == 0
  }

  lemma {:induction false} RunSpends(s: State, ds: Schedule, weight: Copy -> nat, cost: Copy -> nat, e: Option<nat>)
    requires Possible(s, ds) && Pays(weight, cost) && OnlyOn(weight, e)
    ensures var s' := After(s, ds);
            var before := Sum(s.handled, cost) + Sum(s.queued, weight);
            var after := Sum(s'.handled, cost) + Sum(s'.queued, weight);
            after <= before + Redelivered(s, ds, weight) && (AllFail(s, ds, e) ==> after == before)
    decreases |ds|
  {
    if ds != [] {
      DeliverSpends(s, ds[0].0, ds[0].1, weight, cost);
      RunSpends(Deliver(s, ds[0].0, ds[0].1), ds[1..], weight, cost, e);
    }
  }

  lemma {:induction false} RunForetold(s: State, ds: Schedule, weight: Copy -> nat, cost: Copy -> nat, e: Option<nat>)
    requires Possible(s, ds) && Foretells(weight, cost) && OnlyOn(weight, e)
    ensures var s' := After(s, ds);
            var before := Sum(s.dead, cost) + Sum(s.queued, weight);
            var after := Sum(s'.dead, cost) + Sum(s'.queued, weight);
            after <= before + Redelivered(s, ds, weight) && (AllFail(s, ds, e) ==> after == before)
    decreases |ds|
  {
    if ds != [] {
      DeliverForetold(s, ds[0].0, ds[0].1, weight, cost);
      RunForetold(Deliver(s, ds[0].0, ds[0].1), ds[1..], weight, cost, e);
    }
  }

  /** The ledger of one delivery, event by event and queue by queue. The handler is called
      once. A copy leaves its queue exactly if its settlement arrives. It goes to the
      dead letters if the handler fails on the third retry, and if it fails before and
      the republish arrives, one copy more waits in each bound queue, one retry older. */
  lemma DeliveryBalances(s: State, i: nat, f: Fate, e: nat, q: string)
    requires i < |s.queued|
    ensures var c, s', one := s.queued[i], Deliver(s, i, f), At(e, q);
            var settled := if f.settled then one(c) else 0;
            var over := HeaderRetryCount(c.headers) >= 3;
            var again := !f.handlerOk && !over && f.republished && c.event == e && q in BoundQueues(c.key);
            && Sum(s'.handled, one) == Sum(s.handled, one) + one(c)
            && Sum(s'.queued, one) + settled == Sum(s.queued, one) + (if again then 1 else 0)
            && Sum(s'.dead, one) == Sum(s.dead, one) + (if !f.handlerOk && over then settled else 0)
            && ((e, q) in s'.succeeded <==> (e, q) in s.succeeded || (f.handlerOk && one(c) == 1))
  {
    var c, one := s.queued[i], At(e, q);
    var kept := if f.settled then s.queued[..i] + s.queued[i + 1..] else s.queued;
    SumWithout(s.queued, i, one);
    SumOne(c, one);
    SumConcat(s.handled, [c], one);
    SumConcat(s.dead, [c], one);
    SumConcat(kept, Retries(c), one);
    FanoutAt(c.event, c.key, RetryHeaders(c), e, q);
    assert s.dead + [] == s.dead;
  }

  lemma {:induction false} CopiesAt(qs: seq<string>, x: nat, key: string, h: Headers, e: nat, q: string)
    requires Distinct(qs)
    ensures Sum(CopiesTo(qs, x, key, h), At(e, q)) == if x == e && q in qs then 1 else 0
  {
    if qs != [] {
      var rest := qs[1..];
      assert qs == [qs[0]] + rest && qs[0] !in rest;
      CopiesAt(rest, x, key, h, e, q);
    }
  }

  lemma FanoutAt(x: nat, key: string, h: Headers, e: nat, q: string)
    ensures Sum(Fanout(x, key, h), At(e, q)) == if x == e && q in BoundQueues(key) then 1 else 0
  {
    BoundQueuesDistinct(key);
    CopiesAt(BoundQueues(key), x, key, h, e, q);
  }

  /** A retry has the same event and routing key, and counts one retry more. */
  lemma {:induction false} CopiesCarry(qs: seq<string>, e: nat, key: string, h: Headers, c: Copy)
    requires c in CopiesTo(qs, e, key, h)
    ensures c.event == e && c.key == key && c.headers == h
  {
    if c in CopiesTo(qs[1..], e, key, h) {
      CopiesCarry(qs[1..], e, key, h, c);
    }
  }

  lemma RetriesAge(c: Copy, retry: Copy)
    requires retry in Retries(c)
    ensures retry.event == c.event && retry.key == c.key
    ensures HeaderRetryCount(retry.headers) == HeaderRetryCount(c.headers) + 1
  {
    CopiesCarry(BoundQueues(c.key), c.event, c.key, RetryHeaders(c), retry);
  }

  /** Only an int32 under the header's name counts; a publish by the relay has none. */
  lemma OnlyInt32Counts(h: Headers, n: int)
    requires n != 0
    ensures HeaderRetryCount(h) == n <==> h.Some? && "x-retry-count" in h.value && h.value["x-retry-count"] == Int32(n)
    ensures HeaderRetryCount(None) == 0
  {
  }

  // ----- The weights -----

  function RetriesLeft(c: Copy): nat {
    if Retryable(c) then MAX_RETRIES - HeaderRetryCount(c.headers) else 0
  }

  /** Handler calls at one bound queue that the retries of a copy can still cause. */
  function Later(k: nat, left: nat): nat {
    if left == 0 then 0 else 1 + k * Later(k, left - 1)
  }

  /** Handler calls a copy can still cause, itself included. */
  function Spread(k: nat, left: nat): nat {
    if left == 0 then 1 else 1 + k * Spread(k, left - 1)
  }

  function Power(k: nat, n: nat): nat {
    if n == 0 then 1 else k * Power(k, n - 1)
  }

  /** 1 + k + ... + k^n. */
  function Geometric(k: nat, n: nat): nat {
    if n == 0 then 1 else Geometric(k, n - 1) + Power(k, n)
  }

  /** Counts the copies of an event at a queue. */
  function At(e: nat, q: string): Copy -> nat {
    (c: Copy) => if c.event == e && c.queue == q then 1 else 0
  }

  /** Counts the copies of one event at whatever queue; `None` counts every copy. */
  function Of(e: Option<nat>): Copy -> nat {
    (c: Copy) => if Watched(e, c) then 1 else 0
  }

  function CallWeight(e: nat, q: string): Copy -> nat {
    (c: Copy) => if c.event != e then 0
      else (if c.queue == q then 1 else 0)
           + if q in BoundQueues(c.key) then Later(|BoundQueues(c.key)|, RetriesLeft(c)) else 0
  }

  function DeadWeight(e: nat, q: string): Copy -> nat {
    (c: Copy) => if c.event != e then 0
      else if !Retryable(c) then (if c.queue == q then 1 else 0)
      else if q in BoundQueues(c.key) then Power(|BoundQueues(c.key)|, RetriesLeft(c) - 1) else 0
  }

  lemma Times(n: nat, v: nat)
    requires n > 0
    ensures n * v == (n - 1) * v + v
  {
  }

  /** A weight that is `v` on every copy, and one more on the copy for `q`. */
  lemma {:induction false} SumOfCopies(qs: seq<string>, e: nat, key: string, h: Headers, q: string,
                                       f: Copy -> nat, v: nat)
    requires Distinct(qs)
    requires forall n :: n in qs ==> f(Copy(e, key, n, h)) == v + if n == q then 1 else 0
    ensures Sum(CopiesTo(qs, e, key, h), f) == |qs| * v + if q in qs then 1 else 0
  {
    if qs != [] {
      var rest := qs[1..];
      assert qs == [qs[0]] + rest && qs[0] !in rest;
      SumOfCopies(rest, e, key, h, q, f, v);
      Times(|qs|, v);
    }
  }

  /** The same for a weight that is `v` on every copy. */
  lemma {:induction false} SumOfEqualCopies(qs: seq<string>, e: nat, key: string, h: Headers, f: Copy -> nat, v: nat)
    requires forall n :: n in qs ==> f(Copy(e, key, n, h)) == v
    ensures Sum(CopiesTo(qs, e, key, h), f) == |qs| * v
  {
    if qs != [] {
      SumOfEqualCopies(qs[1..], e, key, h, f, v);
      Times(|qs|, v);
    }
  }

  lemma CallWeightOfRetry(c: Copy, n: string, q: string)
    requires Retryable(c)
    ensures CallWeight(c.event, q)(Copy(c.event, c.key, n, RetryHeaders(c))) ==
            (if q in BoundQueues(c.key) then Later(|BoundQueues(c.key)|, RetriesLeft(c) - 1) else 0)
            + if n == q then 1 else 0
  {
  }

  lemma {:induction false} CallWeightPays(e: nat, q: string)
    ensures Pays(CallWeight(e, q), At(e, q))
  {
    var weight := CallWeight(e, q);
    forall c ensures weight(c) == At(e, q)(c) + if Retryable(c) then Sum(Retries(c), weight) else 0 {
      var qs := BoundQueues(c.key);
      if Retryable(c) && c.event == e {
        BoundQueuesDistinct(c.key);
        forall n { CallWeightOfRetry(c, n, q); }
        SumOfCopies(qs, e, c.key, RetryHeaders(c), q, weight, if q in qs then Later(|qs|, RetriesLeft(c) - 1) else 0);
      } else if Retryable(c) {
        SumOfEqualCopies(qs, c.event, c.key, RetryHeaders(c), weight, 0);
      }
    }
  }

  lemma DeadWeightOfRetry(c: Copy, n: string, q: string)
    requires Retryable(c)
    ensures DeadWeight(c.event, q)(Copy(c.event, c.key, n, RetryHeaders(c))) ==
            if RetriesLeft(c) == 1 then (if n == q then 1 else 0)
            else if q in BoundQueues(c.key) then Power(|BoundQueues(c.key)|, RetriesLeft(c) - 2) else 0
  {
  }

  lemma LastRetriesDie(c: Copy, q: string)
    requires Retryable(c) && RetriesLeft(c) == 1
    ensures Sum(Retries(c), DeadWeight(c.event, q)) == if q in BoundQueues(c.key) then 1 else 0
  {
    BoundQueuesDistinct(c.key);
    forall n { DeadWeightOfRetry(c, n, q); }
    SumOfCopies(BoundQueues(c.key), c.event, c.key, RetryHeaders(c), q, DeadWeight(c.event, q), 0);
  }

  lemma EarlierRetriesDie(c: Copy, q: string)
    requires Retryable(c) && RetriesLeft(c) > 1
    ensures Sum(Retries(c), DeadWeight(c.event, q)) ==
            if q in BoundQueues(c.key) then Power(|BoundQueues(c.key)|, RetriesLeft(c) - 1) else 0
  {
    var qs, left := BoundQueues(c.key), RetriesLeft(c);
    forall n { DeadWeightOfRetry(c, n, q); }
    SumOfEqualCopies(qs, c.event, c.key, RetryHeaders(c), DeadWeight(c.event, q),
                     if q in qs then Power(|qs|, left - 2) else 0);
  }

  lemma DeadWeightForetells(e: nat, q: string)
    ensures Foretells(DeadWeight(e, q), At(e, q))
  {
    var weight := DeadWeight(e, q);
    forall c ensures weight(c) == if Retryable(c) then Sum(Retries(c), weight) else At(e, q)(c) {
      if Retryable(c) && c.event == e {
        if RetriesLeft(c) == 1 {
          LastRetriesDie(c, q);
        } else {
          EarlierRetriesDie(c, q);
        }
      } else if Retryable(c) {
        SumOfEqualCopies(BoundQueues(c.key), c.event, c.key, RetryHeaders(c), weight, 0);
      }
    }
  }

  lemma {:induction false} SumZero(cs: seq<Copy>, f: Copy -> nat)
    requires forall c :: c in cs ==> f(c) == 0
    ensures Sum(cs, f) == 0
  {
    if cs != [] {
      SumZero(cs[1..], f);
    }
  }

  ghost predicate Unseen(s: State, e: nat) {
    forall c :: c in s.queued + s.handled + s.dead ==> c.event != e
  }

  /** A copy of the event as its publish or a retry made it: under its own routing key, and
      with no more than the three retries. */
  predicate Genuine(c: Copy, e: nat, key: string) {
    c.event == e ==> c.key == key && HeaderRetryCount(c.headers) >= 0
  }

  ghost predicate AllGenuine(cs: seq<Copy>, e: nat, key: string) {
    forall c :: c in cs ==> Genuine(c, e, key)
  }

  lemma {:induction false} CopiesGenuine(qs: seq<string>, x: nat, k: string, h: Headers, e: nat, key: string)
    requires x == e ==> k == key && HeaderRetryCount(h) >= 0
    ensures AllGenuine(CopiesTo(qs, x, k, h), e, key)
  {
    if qs != [] {
      CopiesGenuine(qs[1..], x, k, h, e, key);
    }
  }

  lemma PublishKeepsGenuine(s: State, x: nat, k: string, h: Headers, e: nat, key: string)
    requires AllGenuine(s.queued, e, key) && (x == e ==> k == key && HeaderRetryCount(h) >= 0)
    ensures AllGenuine(Publish(s, x, k, h).queued, e, key)
  {
    CopiesGenuine(BoundQueues(k), x, k, h, e, key);
  }

  lemma DeliverKeepsGenuine(s: State, i: nat, f: Fate, e: nat, key: string)
    requires i < |s.queued| && AllGenuine(s.queued, e, key)
    ensures AllGenuine(Deliver(s, i, f).queued, e, key)
  {
    var c := s.queued[i];
    var rest := if f.settled then s.queued[..i] + s.queued[i + 1..] else s.queued;
    assert c in s.queued && forall x :: x in rest ==> x in s.queued;
    PublishKeepsGenuine(s.(queued := rest, handled := s.handled + [c]), c.event, c.key, RetryHeaders(c), e, key);
  }

  /** No genuine copy of the event weighs more than `most`, at `q` one more if `extra`,
      and no other copy weighs anything. */
  ghost predicate WeighsAtMost(weight: Copy -> nat, e: nat, key: string, most: nat, q: string, extra: bool) {
    && OnlyOn(weight, Some(e))
    && forall c: Copy :: c.event == e && Genuine(c, e, key) ==>
         weight(c) <= most + if extra && c.queue == q then 1 else 0
  }

  /** The same price for every copy of the event. */
  function Flat(e: nat, price: nat): Copy -> nat {
    (c: Copy) => if c.event == e then price else 0
  }

  lemma OneMoreTime(n: nat, price: nat, more: nat)
    requires more == price * n + price
    ensures more == price * (n + 1)
  {
  }

  lemma {:induction false} FlatPrice(s: State, ds: Schedule, e: nat, price: nat)
    requires Possible(s, ds)
    ensures Redelivered(s, ds, Flat(e, price)) == price * Redelivered(s, ds, Of(Some(e)))
    decreases |ds|
  {
    if ds != [] {
      var c, s1 := s.queued[ds[0].0], Deliver(s, ds[0].0, ds[0].1);
      FlatPrice(s1, ds[1..], e, price);
      if c.event == e && !ds[0].1.settled {
        OneMoreTime(Redelivered(s1, ds[1..], Of(Some(e))), price, Redelivered(s, ds, Flat(e, price)));
      }
    }
  }

  /** So each redelivery of the event costs no more than that. */
  lemma {:induction false} RedeliveryCost(s: State, ds: Schedule, weight: Copy -> nat, e: nat, key: string,
                                          most: nat, q: string, extra: bool)
    requires Possible(s, ds) && AllGenuine(s.queued, e, key) && WeighsAtMost(weight, e, key, most, q, extra)
    ensures Redelivered(s, ds, weight) <=
            Redelivered(s, ds, Flat(e, most)) + if extra then Redelivered(s, ds, At(e, q)) else 0
    decreases |ds|
  {
    if ds != [] {
      assert s.queued[ds[0].0] in s.queued;
      DeliverKeepsGenuine(s, ds[0].0, ds[0].1, e, key);
      RedeliveryCost(Deliver(s, ds[0].0, ds[0].1), ds[1..], weight, e, key, most, q, extra);
    }
  }

  /** The weights grow with the retries left. */
  lemma {:induction false} LaterGrows(k: nat, a: nat, b: nat)
    requires a <= b
    ensures Later(k, a) <= Later(k, b)
  {
    if a > 0 {
      LaterGrows(k, a - 1, b - 1);
      Larger(k, Later(k, a - 1), Later(k, b - 1));
    }
  }

  lemma {:induction false} SpreadGrows(k: nat, a: nat, b: nat)
    requires a <= b
    ensures 1 <= Spread(k, a) <= Spread(k, b)
  {
    if a > 0 {
      SpreadGrows(k, a - 1, b - 1);
      Larger(k, Spread(k, a - 1), Spread(k, b - 1));
    }
  }

  lemma {:induction false} PowerGrows(k: nat, a: nat, b: nat)
    requires k > 0 && a <= b
    ensures 1 <= Power(k, a) <= Power(k, b)
    decreases b
  {
    if a > 0 {
      PowerGrows(k, a - 1, b - 1);
      Larger(k, Power(k, a - 1), Power(k, b - 1));
      Larger(k, 1, Power(k, a - 1));
    } else if b > 0 {
      PowerGrows(k, 0, b - 1);
      Larger(k, 1, Power(k, b - 1));
    }
  }

  lemma Larger(k: nat, a: nat, b: nat)
    requires a <= b
    ensures k * a <= k * b
  {
  }

  lemma SumOfTimes(a: nat, b: nat, v: nat)
    ensures v * (a + b) == v * a + v * b
  {
  }

  /** The weights are the sums 1 + k + ... + k^n. */
  lemma {:induction false} WeightsAreGeometric(k: nat, n: nat)
    ensures Spread(k, n) == Geometric(k, n) && Later(k, n + 1) == Geometric(k, n)
    ensures 1 + k * Geometric(k, n) == Geometric(k, n + 1)
  {
    if n == 0 {
      assert Power(k, 1) == k && Later(k, 1) == 1;
    } else {
      WeightsAreGeometric(k, n - 1);
      SumOfTimes(Geometric(k, n - 1), Power(k, n), k);
      assert Power(k, n + 1) == k * Power(k, n);
    }
  }

  /** The bounds for one to three bound queues: 4, 15 or 40 calls at each queue, 4, 30 or 120
      in all, and 1, 16 or 81 dead letters; and for any number of queues. */
  lemma BoundsWrittenOut(k: nat)
    ensures Geometric(1, 3) == 4 && Geometric(2, 3) == 15 && Geometric(3, 3) == 40
    ensures Power(1, 4) == 1 && Power(2, 4) == 16 && Power(3, 4) == 81
    ensures Geometric(k, 3) == 1 + k + k * k + k * k * k && Power(k, 4) == k * k * k * k
  {
    var square, cube := k * k, k * k * k;
    assert Power(1, 2) == 1 && Power(1, 3) == 1;
    assert Power(2, 2) == 4 && Power(2, 3) == 8;
    assert Power(3, 2) == 9 && Power(3, 3) == 27;
    assert Geometric(1, 2) == 3 && Geometric(2, 2) == 7 && Geometric(3, 2) == 13;
    assert Power(k, 1) == k && Power(k, 2) == square && k * square == cube && Power(k, 3) == cube;
    assert k * cube == k * k * k * k;
    assert Geometric(k, 1) == 1 + k && Geometric(k, 2) == 1 + k + square;
  }

  lemma CallWeightCap(e: nat, key: string, q: string)
    requires q in BoundQueues(key)
    ensures WeighsAtMost(CallWeight(e, q), e, key, Geometric(|BoundQueues(key)|, 2), q, true)
  {
    var k := |BoundQueues(key)|;
    WeightsAreGeometric(k, 2);
    forall c: Copy | c.event == e && Genuine(c, e, key)
      ensures CallWeight(e, q)(c) <= Later(k, 3) + if c.queue == q then 1 else 0
    {
      LaterGrows(k, RetriesLeft(c), 3);
    }
  }

  lemma DeadWeightCap(e: nat, key: string, q: string)
    requires q in BoundQueues(key)
    ensures WeighsAtMost(DeadWeight(e, q), e, key, Power(|BoundQueues(key)|, 2), q, false)
  {
    var k := |BoundQueues(key)|;
    forall c: Copy | c.event == e && Genuine(c, e, key) ensures DeadWeight(e, q)(c) <= Power(k, 2) {
      PowerGrows(k, if Retryable(c) then RetriesLeft(c) - 1 else 0, 2);
    }
  }

  // ----- One publish -----

  /** What a bound speaks of: any schedule after one publish of a new event. */
  ghost predicate PublishedOnce(s: State, e: nat, key: string, ds: Schedule) {
    Unseen(s, e) && Possible(Publish(s, e, key, None), ds)
  }

  /** Every delivery of the event failed, and none of it waits any more. */
  ghost predicate Exhausted(s: State, ds: Schedule, e: nat) {
    Possible(s, ds) && AllFail(s, ds, Some(e)) && forall c :: c in After(s, ds).queued ==> c.event != e
  }

  lemma OnceIsGenuine(s: State, e: nat, key: string)
    requires Unseen(s, e)
    ensures AllGenuine(Publish(s, e, key, None).queued, e, key)
  {
    PublishKeepsGenuine(s, e, key, None, e, key);
  }

  /** What waits right after the publish weighs what its copies do. */
  lemma OnceWeighs(s: State, e: nat, key: string, weight: Copy -> nat)
    requires Unseen(s, e) && OnlyOn(weight, Some(e))
    ensures Sum(Publish(s, e, key, None).queued, weight) == Sum(Fanout(e, key, None), weight)
  {
    SumZero(s.queued, weight);
    SumConcat(s.queued, Fanout(e, key, None), weight);
  }

  lemma CostIsWatched(weight: Copy -> nat, cost: Copy -> nat, e: Option<nat>)
    requires Pays(weight, cost) && OnlyOn(weight, e)
    ensures OnlyOn(cost, e)
  {
    forall c | !Watched(e, c) ensures cost(c) == 0 {
      assert weight(c) == 0;
    }
  }

  /** The price of one publish, for any weight that pays for what `cost` counts. */
  lemma OnceSpends(s: State, e: nat, key: string, ds: Schedule, weight: Copy -> nat, cost: Copy -> nat,
                   most: nat, q: string, extra: bool)
    requires PublishedOnce(s, e, key, ds) && Pays(weight, cost) && WeighsAtMost(weight, e, key, most, q, extra)
    ensures var s1 := Publish(s, e, key, None);
            var price := Sum(Fanout(e, key, None), weight);
            && Sum(After(s1, ds).handled, cost) <=
                 price + Redelivered(s1, ds, Flat(e, most)) + (if extra then Redelivered(s1, ds, At(e, q)) else 0)
            && (Exhausted(s1, ds, e) ==> Sum(After(s1, ds).handled, cost) == price)
  {
    var s1 := Publish(s, e, key, None);
    RunSpends(s1, ds, weight, cost, Some(e));
    OnceIsGenuine(s, e, key);
    RedeliveryCost(s1, ds, weight, e, key, most, q, extra);
    OnceWeighs(s, e, key, weight);
    CostIsWatched(weight, cost, Some(e));
    SumZero(s.handled, cost);
    if Exhausted(s1, ds, e) {
      SumZero(After(s1, ds).queued, weight);
    }
  }

  lemma OnceForetold(s: State, e: nat, key: string, ds: Schedule, weight: Copy -> nat, cost: Copy -> nat,
                     most: nat, q: string)
    requires PublishedOnce(s, e, key, ds) && Foretells(weight, cost) && WeighsAtMost(weight, e, key, most, q, false)
    requires OnlyOn(cost, Some(e))
    ensures var s1 := Publish(s, e, key, None);
            var price := Sum(Fanout(e, key, None), weight);
            && Sum(After(s1, ds).dead, cost) <= price + Redelivered(s1, ds, Flat(e, most))
            && (Exhausted(s1, ds, e) ==> Sum(After(s1, ds).dead, cost) == price)
  {
    var s1 := Publish(s, e, key, None);
    RunForetold(s1, ds, weight, cost, Some(e));
    OnceIsGenuine(s, e, key);
    RedeliveryCost(s1, ds, weight, e, key, most, q, false);
    OnceWeighs(s, e, key, weight);
    SumZero(s.dead, cost);
    if Exhausted(s1, ds, e) {
      SumZero(After(s1, ds).queued, weight);
    }
  }

  lemma FanoutCallWeight(e: nat, key: string, q: string)
    requires q in BoundQueues(key)
    ensures Sum(Fanout(e, key, None), CallWeight(e, q)) == Geometric(|BoundQueues(key)|, 3)
  {
    var qs := BoundQueues(key);
    WeightsAreGeometric(|qs|, 2);
    BoundQueuesDistinct(key);
    SumOfCopies(qs, e, key, None, q, CallWeight(e, q), Later(|qs|, 3));
  }

  lemma FanoutDeadWeight(e: nat, key: string, q: string)
    requires q in BoundQueues(key)
    ensures Sum(Fanout(e, key, None), DeadWeight(e, q)) == Power(|BoundQueues(key)|, 3)
  {
    var qs := BoundQueues(key);
    SumOfEqualCopies(qs, e, key, None, DeadWeight(e, q), Power(|qs|, 2));
  }

  /** Retry amplification, queue by queue. After one publish of an event bound to k
      queues, whatever happens to other events, each bound queue's consumer is called
      for it at most 1+k+k^2+k^3 times, plus 1+k+k^2 for every delivery of it whose
      settlement was lost and one more for each of those at this queue; and exactly
      1+k+k^2+k^3 times when every delivery of it fails and is settled. */
  lemma CallsPerQueue(s: State, e: nat, key: string, ds: Schedule, q: string)
    requires PublishedOnce(s, e, key, ds) && q in BoundQueues(key)
    ensures var s1, k := Publish(s, e, key, None), |BoundQueues(key)|;
            var calls := Sum(After(s1, ds).handled, At(e, q));
            && calls <= Geometric(k, 3) +
                 Geometric(k, 2) * Redelivered(s1, ds, Of(Some(e))) + Redelivered(s1, ds, At(e, q))
            && (Exhausted(s1, ds, e) ==> calls == Geometric(k, 3))
  {
    var k := |BoundQueues(key)|;
    CallWeightPays(e, q);
    CallWeightCap(e, key, q);
    OnceSpends(s, e, key, ds, CallWeight(e, q), At(e, q), Geometric(k, 2), q, true);
    FanoutCallWeight(e, key, q);
    FlatPrice(Publish(s, e, key, None), ds, e, Geometric(k, 2));
  }

  /** Each bound queue's own dead-letter queue gets at most k^3 copies of it, plus k^2 for
      every delivery of it whose settlement was lost, and exactly k^3 when every
      delivery of it fails and is settled. */
  lemma DeadPerQueue(s: State, e: nat, key: string, ds: Schedule, q: string)
    requires PublishedOnce(s, e, key, ds) && q in BoundQueues(key)
    ensures var s1, k := Publish(s, e, key, None), |BoundQueues(key)|;
            var dead := Sum(After(s1, ds).dead, At(e, q));
            && dead <= Power(k, 3) + Power(k, 2) * Redelivered(s1, ds, Of(Some(e)))
            && (Exhausted(s1, ds, e) ==> dead == Power(k, 3))
  {
    DeadWeightForetells(e, q);
    DeadWeightCap(e, key, q);
    OnceForetold(s, e, key, ds, DeadWeight(e, q), At(e, q), Power(|BoundQueues(key)|, 2), q);
    FanoutDeadWeight(e, key, q);
    FlatPrice(Publish(s, e, key, None), ds, e, Power(|BoundQueues(key)|, 2));
  }

  function TotalCallWeight(e: Option<nat>): Copy -> nat {
    (c: Copy) => if Watched(e, c) then Spread(|BoundQueues(c.key)|, RetriesLeft(c)) else 0
  }

  function TotalDeadWeight(e: Option<nat>): Copy -> nat {
    (c: Copy) => if Watched(e, c) then Power(|BoundQueues(c.key)|, RetriesLeft(c)) else 0
  }

  lemma TotalWeightsOfRetry(c: Copy, n: string, e: Option<nat>)
    requires Retryable(c) && Watched(e, c)
    ensures var retry := Copy(c.event, c.key, n, RetryHeaders(c));
            && TotalCallWeight(e)(retry) == Spread(|BoundQueues(c.key)|, RetriesLeft(c) - 1)
            && TotalDeadWeight(e)(retry) == Power(|BoundQueues(c.key)|, RetriesLeft(c) - 1)
  {
  }

  lemma TotalCallWeightPays(e: Option<nat>)
    ensures Pays(TotalCallWeight(e), Of(e))
  {
    var weight := TotalCallWeight(e);
    forall c ensures weight(c) == Of(e)(c) + if Retryable(c) then Sum(Retries(c), weight) else 0 {
      var qs := BoundQueues(c.key);
      if Retryable(c) && Watched(e, c) {
        forall n { TotalWeightsOfRetry(c, n, e); }
        SumOfEqualCopies(qs, c.event, c.key, RetryHeaders(c), weight, Spread(|qs|, RetriesLeft(c) - 1));
      } else if Retryable(c) {
        SumOfEqualCopies(qs, c.event, c.key, RetryHeaders(c), weight, 0);
      }
    }
  }

  lemma TotalDeadWeightForetells(e: Option<nat>)
    ensures Foretells(TotalDeadWeight(e), Of(e))
  {
    var weight := TotalDeadWeight(e);
    forall c ensures weight(c) == if Retryable(c) then Sum(Retries(c), weight) else Of(e)(c) {
      var qs := BoundQueues(c.key);
      if Retryable(c) && Watched(e, c) {
        forall n { TotalWeightsOfRetry(c, n, e); }
        SumOfEqualCopies(qs, c.event, c.key, RetryHeaders(c), weight, Power(|qs|, RetriesLeft(c) - 1));
      } else if Retryable(c) {
        SumOfEqualCopies(qs, c.event, c.key, RetryHeaders(c), weight, 0);
      }
    }
  }

  lemma TotalWeightsCap(e: nat, key: string)
    ensures WeighsAtMost(TotalCallWeight(Some(e)), e, key, Geometric(|BoundQueues(key)|, 3), "", false)
    ensures WeighsAtMost(TotalDeadWeight(Some(e)), e, key, Power(|BoundQueues(key)|, 3), "", false)
  {
    var k := |BoundQueues(key)|;
    BoundQueuesDistinct(key);
    WeightsAreGeometric(k, 3);
    forall c: Copy | c.event == e && Genuine(c, e, key)
      ensures TotalCallWeight(Some(e))(c) <= Spread(k, 3) && TotalDeadWeight(Some(e))(c) <= Power(k, 3)
    {
      SpreadGrows(k, RetriesLeft(c), 3);
      PowerGrows(k, RetriesLeft(c), 3);
    }
  }

  lemma FanoutTotalWeights(e: nat, key: string)
    ensures Sum(Fanout(e, key, None), TotalCallWeight(Some(e))) ==
            |BoundQueues(key)| * Geometric(|BoundQueues(key)|, 3)
    ensures Sum(Fanout(e, key, None), TotalDeadWeight(Some(e))) == Power(|BoundQueues(key)|, 4)
  {
    var qs := BoundQueues(key);
    WeightsAreGeometric(|qs|, 3);
    SumOfEqualCopies(qs, e, key, None, TotalCallWeight(Some(e)), Spread(|qs|, 3));
    SumOfEqualCopies(qs, e, key, None, TotalDeadWeight(Some(e)), Power(|qs|, 3));
  }

  /** Retry amplification in all: one publish of an event bound to k queues causes at
      most k(1+k+k^2+k^3) handler calls, whatever the handlers return and whatever
      happens to other events, and 1+k+k^2+k^3 more for every delivery of it whose
      settlement was lost; and exactly k(1+k+k^2+k^3) when every delivery of it fails
      and is settled. */
  lemma {:induction false} CallsInAll(s: State, e: nat, key: string, ds: Schedule)
    requires PublishedOnce(s, e, key, ds)
    ensures var s1, k := Publish(s, e, key, None), |BoundQueues(key)|;
            var calls := Sum(After(s1, ds).handled, Of(Some(e)));
            && calls <= k * Geometric(k, 3) + Geometric(k, 3) * Redelivered(s1, ds, Of(Some(e)))
            && (Exhausted(s1, ds, e) ==> calls == k * Geometric(k, 3))
  {
    var k := |BoundQueues(key)|;
    TotalCallWeightPays(Some(e));
    TotalWeightsCap(e, key);
    OnceSpends(s, e, key, ds, TotalCallWeight(Some(e)), Of(Some(e)), Geometric(k, 3), "", false);
    FanoutTotalWeights(e, key);
    FlatPrice(Publish(s, e, key, None), ds, e, Geometric(k, 3));
  }

  /** At most k^4 of its copies are dead-lettered, and k^3 more for every delivery of it
      whose settlement was lost; and exactly k^4 when every delivery of it fails and is
      settled. */
  lemma {:induction false} DeadInAll(s: State, e: nat, key: string, ds: Schedule)
    requires PublishedOnce(s, e, key, ds)
    ensures var s1, k := Publish(s, e, key, None), |BoundQueues(key)|;
            var dead := Sum(After(s1, ds).dead, Of(Some(e)));
            && dead <= Power(k, 4) + Power(k, 3) * Redelivered(s1, ds, Of(Some(e)))
            && (Exhausted(s1, ds, e) ==> dead == Power(k, 4))
  {
    var k := |BoundQueues(key)|;
    TotalDeadWeightForetells(Some(e));
    TotalWeightsCap(e, key);
    OnceForetold(s, e, key, ds, TotalDeadWeight(Some(e)), Of(Some(e)), Power(k, 3), "");
    FanoutTotalWeights(e, key);
    FlatPrice(Publish(s, e, key, None), ds, e, Power(k, 3));
  }

  lemma {:induction false} CountAll(cs: seq<Copy>)
    ensures Sum(cs, Of(None)) == |cs|
  {
    if cs != [] {
      CountAll(cs[1..]);
    }
  }

  lemma {:induction false} EveryDeliveryCalls(s: State, ds: Schedule)
    requires Possible(s, ds)
    ensures |After(s, ds).handled| == |s.handled| + |ds|
    decreases |ds|
  {
    if ds != [] {
      EveryDeliveryCalls(Deliver(s, ds[0].0, ds[0].1), ds[1..]);
    }
  }

  /** Retrying ends: no schedule of deliveries, of any events whatever their retry headers,
      is longer than the weight of the copies it starts from, plus that of the copies
      delivered again because their settlement was lost. */
  lemma {:induction false} RetryingEnds(s: State, ds: Schedule)
    requires Possible(s, ds)
    ensures |ds| <= Sum(s.queued, TotalCallWeight(None)) + Redelivered(s, ds, TotalCallWeight(None))
  {
    TotalCallWeightPays(None);
    RunSpends(s, ds, TotalCallWeight(None), Of(None), None);
    EveryDeliveryCalls(s, ds);
    CountAll(s.handled);
    CountAll(After(s, ds).handled);
  }

  // ----- The bounds are met -----

  lemma DeliveryShrinks(s: State, i: nat, f: Fate)
    requires i < |s.queued| && f.settled
    ensures Sum(Deliver(s, i, f).queued, TotalCallWeight(None)) < Sum(s.queued, TotalCallWeight(None))
  {
    TotalCallWeightPays(None);
    DeliverSpends(s, i, f, TotalCallWeight(None), Of(None));
    SumConcat(s.handled, [s.queued[i]], Of(None));
  }

  /** Whatever waits, there is a schedule in which every call fails until nothing waits. */
  lemma {:induction false} CanExhaust(s: State) returns (ds: Schedule)
    ensures Possible(s, ds) && AllFail(s, ds, None) && After(s, ds).queued == []
    decreases Sum(s.queued, TotalCallWeight(None))
  {
    if s.queued == [] {
      ds := [];
    } else {
      var fail := Fate(false, true, true);
      DeliveryShrinks(s, 0, fail);
      var rest := CanExhaust(Deliver(s, 0, fail));
      ds := [(0, fail)] + rest;
      assert ds[1..] == rest;
    }
  }

  lemma {:induction false} AllIncludesOne(s: State, ds: Schedule, e: nat)
    requires Possible(s, ds) && AllFail(s, ds, None)
    ensures AllFail(s, ds, Some(e))
    decreases |ds|
  {
    if ds != [] {
      AllIncludesOne(Deliver(s, ds[0].0, ds[0].1), ds[1..], e);
    }
  }

  /** After every publish some schedule of deliveries meets all four bounds at once. */
  lemma {:induction false} BoundsAreMet(s: State, e: nat, key: string) returns (ds: Schedule)
    requires Unseen(s, e)
    ensures PublishedOnce(s, e, key, ds) && Exhausted(Publish(s, e, key, None), ds, e)
    ensures var s', k := After(Publish(s, e, key, None), ds), |BoundQueues(key)|;
            Sum(s'.handled, Of(Some(e))) == k * Geometric(k, 3) && Sum(s'.dead, Of(Some(e))) == Power(k, 4)
    ensures var s', k := After(Publish(s, e, key, None), ds), |BoundQueues(key)|;
            forall q :: q in BoundQueues(key) ==>
              Sum(s'.handled, At(e, q)) == Geometric(k, 3) && Sum(s'.dead, At(e, q)) == Power(k, 3)
  {
    ds := CanExhaust(Publish(s, e, key, None));
    AllIncludesOne(Publish(s, e, key, None), ds, e);
    var s', k := After(Publish(s, e, key, None), ds), |BoundQueues(key)|;
    CallsInAll(s, e, key, ds);
    DeadInAll(s, e, key, ds);
    forall q | q in BoundQueues(key)
      ensures Sum(s'.handled, At(e, q)) == Geometric(k, 3) && Sum(s'.dead, At(e, q)) == Power(k, 3)
    {
      CallsPerQueue(s, e, key, ds, q);
      DeadPerQueue(s, e, key, ds, q);
    }
  }
}

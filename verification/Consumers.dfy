/** The consume loop over the broker, and what it never loses. */
module Consumers {
  import opened Wrappers
  import opened Broker

  ghost predicate CopyIn(cs: seq<Copy>, e: nat, q: string) {
    exists c :: c in cs && c.event == e && c.queue == q
  }

  /** The event waits in the queue, was handled by its consumer, or is in its dead-letter queue. */
  ghost predicate Tracked(s: State, e: nat, q: string) {
    CopyIn(s.queued, e, q) || (e, q) in s.succeeded || CopyIn(s.dead, e, q)
  }

  /** Every copy sits in a queue bound to its routing key. */
  ghost predicate WellRouted(s: State) {
    forall c :: c in s.queued ==> c.queue in BoundQueues(c.key)
  }

  lemma {:induction false} CopiesReach(qs: seq<string>, e: nat, key: string, h: Headers, c: Copy)
    ensures c in CopiesTo(qs, e, key, h) <==> c == Copy(e, key, c.queue, h) && c.queue in qs
  {
    if qs != [] {
      CopiesReach(qs[1..], e, key, h, c);
    }
  }

  /** A publish the exchange accepts puts a copy in every bound queue. */
  lemma PublishTracks(s: State, e: nat, key: string, h: Headers)
    requires WellRouted(s)
    ensures WellRouted(Publish(s, e, key, h))
    ensures forall q :: q in BoundQueues(key) ==> Tracked(Publish(s, e, key, h), e, q)
    ensures forall x, q :: Tracked(s, x, q) ==> Tracked(Publish(s, e, key, h), x, q)
  {
    var s' := Publish(s, e, key, h);
    forall c | c in s'.queued ensures c.queue in BoundQueues(c.key) {
      CopiesReach(BoundQueues(key), e, key, h, c);
    }
    forall q | q in BoundQueues(key) ensures CopyIn(s'.queued, e, q) {
      CopiesReach(BoundQueues(key), e, key, h, Copy(e, key, q, h));
      assert Copy(e, key, q, h) in s'.queued;
    }
    forall x, q | Tracked(s, x, q) ensures Tracked(s', x, q) {
      if c :| c in s.queued && c.event == x && c.queue == q {
        assert c in s'.queued;
      }
    }
  }

  /** The consumer acknowledges a failure whose republish did not reach the exchange. */
  predicate Drops(s: State, i: nat, f: Fate, e: nat, q: string)
    requires i < |s.queued|
  {
    && s.queued[i].event == e && s.queued[i].queue == q
    && !f.handlerOk && Retryable(s.queued[i]) && !f.republished && f.settled
  }

  /** It does so on the last copy of an event that the queue neither handled nor dead-lettered. */
  ghost predicate Loses(s: State, i: nat, f: Fate, e: nat, q: string)
    requires i < |s.queued|
  {
    && Drops(s, i, f, e, q)
    && (e, q) !in s.succeeded && !CopyIn(s.dead, e, q)
    && !CopyIn(s.queued[..i] + s.queued[i + 1..], e, q)
  }

  lemma DeliverKeepsRouted(s: State, i: nat, f: Fate)
    requires i < |s.queued| && WellRouted(s)
    ensures WellRouted(Deliver(s, i, f))
  {
    var c := s.queued[i];
    var rest := if f.settled then s.queued[..i] + s.queued[i + 1..] else s.queued;
    forall x | x in rest ensures x.queue in BoundQueues(x.key) {
      assert x in s.queued;
    }
    PublishTracks(s.(queued := rest, handled := s.handled + [c]), c.event, c.key, RetryHeaders(c));
  }

  lemma CopyInConcat(a: seq<Copy>, b: seq<Copy>, e: nat, q: string)
    ensures CopyIn(a + b, e, q) <==> CopyIn(a, e, q) || CopyIn(b, e, q)
  {
  }

  lemma CopyInWithout(cs: seq<Copy>, i: nat, e: nat, q: string)
    requires i < |cs|
    ensures CopyIn(cs, e, q) <==> CopyIn(cs[..i] + cs[i + 1..], e, q) || (cs[i].event == e && cs[i].queue == q)
  {
  }

  lemma CopyInRetries(c: Copy, e: nat, q: string)
    ensures CopyIn(Retries(c), e, q) <==> c.event == e && q in BoundQueues(c.key)
  {
    var qs, h := BoundQueues(c.key), RetryHeaders(c);
    CopiesReach(qs, c.event, c.key, h, Copy(c.event, c.key, q, h));
    if x :| x in Retries(c) && x.event == e && x.queue == q {
      CopiesReach(qs, c.event, c.key, h, x);
    }
  }

  /** A delivery loses an event for a queue exactly when its discarded republish error
      hid a failure on the last copy; in every other case, including a crash between
      the republish and the ack, the event stays accounted for. */
  lemma DeliveryLosesExactly(s: State, i: nat, f: Fate, e: nat, q: string)
    requires i < |s.queued| && WellRouted(s) && Tracked(s, e, q)
    ensures Tracked(Deliver(s, i, f), e, q) <==> !Loses(s, i, f, e, q)
  {
    var c := s.queued[i];
    var kept := if f.settled then s.queued[..i] + s.queued[i + 1..] else s.queued;
    CopyInWithout(s.queued, i, e, q);
    if !f.handlerOk && Retryable(c) && f.republished {
      assert c.queue in BoundQueues(c.key) by {
        assert c in s.queued;
      }
      CopyInConcat(kept, Retries(c), e, q);
      CopyInRetries(c, e, q);
    } else if !f.handlerOk && !Retryable(c) && f.settled {
      CopyInConcat(s.dead, [c], e, q);
      assert c in [c];
    }
  }

  ghost predicate NeverDrops(s: State, ds: Schedule, e: nat, q: string)
    requires Possible(s, ds)
    decreases |ds|
  {
    ds != [] ==> !Drops(s, ds[0].0, ds[0].1, e, q) && NeverDrops(Deliver(s, ds[0].0, ds[0].1), ds[1..], e, q)
  }

  /** Over any schedule, with failing handlers, consumers dying before or after the
      republish, lost acks and redeliveries, an event once in a queue is still there,
      handled, or in that queue's own DLQ, unless that queue's consumer acknowledged a
      failure of it whose republish was lost. */
  lemma {:induction false} NothingLost(s: State, ds: Schedule, e: nat, q: string)
    requires WellRouted(s) && Tracked(s, e, q)
    requires Possible(s, ds) && NeverDrops(s, ds, e, q)
    ensures Tracked(After(s, ds), e, q) && WellRouted(After(s, ds))
    decreases |ds|
  {
    if ds != [] {
      DeliverKeepsRouted(s, ds[0].0, ds[0].1);
      DeliveryLosesExactly(s, ds[0].0, ds[0].1, e, q);
      NothingLost(Deliver(s, ds[0].0, ds[0].1), ds[1..], e, q);
    }
  }

  lemma {:induction false} CopiesInOrder(qs: seq<string>, e: nat, key: string, h: Headers)
    ensures |CopiesTo(qs, e, key, h)| == |qs|
    ensures forall i :: 0 <= i < |qs| ==> CopiesTo(qs, e, key, h)[i] == Copy(e, key, qs[i], h)
  {
    if qs != [] {
      CopiesInOrder(qs[1..], e, key, h);
    }
  }

  /** A queue gets one copy of a publish. */
  lemma OnlyCopy(qs: seq<string>, e: nat, key: string, h: Headers, i: nat)
    requires i < |qs| && Distinct(qs)
    ensures |CopiesTo(qs, e, key, h)| == |qs| && CopiesTo(qs, e, key, h)[i] == Copy(e, key, qs[i], h)
    ensures !CopyIn(CopiesTo(qs, e, key, h)[..i] + CopiesTo(qs, e, key, h)[i + 1..], e, qs[i])
  {
    CopiesInOrder(qs, e, key, h);
    var cs := CopiesTo(qs, e, key, h);
    forall c | c in cs[..i] + cs[i + 1..] ensures c.queue != qs[i] {
      var j :| 0 <= j < |cs| && j != i && cs[j] == c;
    }
  }

  /** It does happen: every event, at every queue it is bound to, is lost by one delivery
      right after its publish, if the handler fails, the republish does not arrive and
      the ack does. */
  lemma LossIsReachable(e: nat, key: string, q: string) returns (i: nat)
    requires q in BoundQueues(key)
    ensures var s := Publish(State([], [], {}, []), e, key, None);
            && Tracked(s, e, q) && i < |s.queued|
            && Loses(s, i, Fate(false, false, true), e, q)
            && !Tracked(Deliver(s, i, Fate(false, false, true)), e, q)
  {
    var empty, qs := State([], [], {}, []), BoundQueues(key);
    var s := Publish(empty, e, key, None);
    PublishTracks(empty, e, key, None);
    BoundQueuesDistinct(key);
    i :| 0 <= i < |qs| && qs[i] == q;
    OnlyCopy(qs, e, key, None, i);
    assert s.queued == CopiesTo(qs, e, key, None);
    DeliveryLosesExactly(s, i, Fate(false, false, true), e, q);
  }

  lemma {:induction false} OneMore(s: State, ds: Schedule, d: (nat, Fate))
    requires Possible(s, ds) && d.0 < |After(s, ds).queued|
    ensures Possible(s, ds + [d]) && After(s, ds + [d]) == Deliver(After(s, ds), d.0, d.1)
    decreases |ds|
  {
    if ds == [] {
      assert ds + [d] == [d];
    } else {
      OneMore(Deliver(s, ds[0].0, ds[0].1), ds[1..], d);
      assert (ds + [d])[1..] == ds[1..] + [d];
    }
  }

  class Channel {
    var broker: State

    constructor (s: State)
      ensures broker == s
    {
      broker := s;
    }

    method PublishTo(event: nat, key: string, h: Headers)
      modifies this
      ensures broker == Publish(old(broker), event, key, h)
    {
      broker := broker.(queued := broker.queued + Fanout(event, key, h));
    }

    /** Ack, or nack without requeue: the broker forgets the copy or dead-letters it. */
    method Settle(i: nat, deadLetter: bool)
      requires i < |broker.queued|
      modifies this
      ensures broker == old(broker).(
                queued := old(broker.queued)[..i] + old(broker.queued)[i + 1..],
                dead := old(broker.dead) + if deadLetter then [old(broker.queued)[i]] else [])
    {
      var c := broker.queued[i];
      broker := broker.(queued := broker.queued[..i] + broker.queued[i + 1..],
                        dead := broker.dead + if deadLetter then [c] else []);
    }

    /** One turn of the loop in Consume. */
    method HandleOne(i: nat, handlerOk: bool, republished: bool, settled: bool)
      requires i < |broker.queued|
      modifies this
      ensures broker == Deliver(old(broker), i, Fate(handlerOk, republished, settled))
    {
      var d := broker.queued[i];
      var retryCount := HeaderRetryCount(d.headers);
      broker := broker.(handled := broker.handled + [d]);
      if handlerOk {
        broker := broker.(succeeded := broker.succeeded + {(d.event, d.queue)});
        if settled {
          Settle(i, false);
        }
        return;
      }
      if retryCount >= MAX_RETRIES {
        if settled {
          Settle(i, true);
        }
        return;
      }
      if republished {
        PublishTo(d.event, d.key, Some(map["x-retry-count" := Int32(retryCount + 1)]));
      }
      if settled {
        Settle(i, false);
      }
      assert Deliver(old(broker), i, Fate(handlerOk, republished, settled)).queued == broker.queued;
    }

    /** The consumers together, until they are cancelled: `turns` deliveries, of waiting
        copies in any order, each with its own fate, or fewer if the queues run empty.
        The geometric weight of the copies is turns enough, if every settlement arrives. */
    method Consume(turns: nat, fates: nat -> Fate) returns (ghost ds: Schedule)
      modifies this
      ensures Possible(old(broker), ds) && broker == After(old(broker), ds)
      ensures |ds| <= turns && (|ds| < turns ==> broker.queued == [])
      ensures forall i :: 0 <= i < |ds| ==> ds[i].1 == fates(i)
      ensures |ds| <= Sum(old(broker.queued), TotalCallWeight(None)) +
                      Redelivered(old(broker), ds, TotalCallWeight(None))
    {
      ds := [];
      var turn := 0;
      while turn < turns && broker.queued != []
        invariant turn == |ds| <= turns
        invariant Possible(old(broker), ds) && broker == After(old(broker), ds)
        invariant forall i :: 0 <= i < |ds| ==> ds[i].1 == fates(i)
      {
        var i: nat :| i < |broker.queued|;
        var fate := fates(turn);
        OneMore(old(broker), ds, (i, fate));
        HandleOne(i, fate.handlerOk, fate.republished, fate.settled);
        ds := ds + [(i, fate)];
        turn := turn + 1;
      }
      RetryingEnds(old(broker), ds);
    }
  }
}

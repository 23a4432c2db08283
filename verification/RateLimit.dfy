/** The fixed-window rate limiter: one Redis counter per client and window, with a TTL
    set by the request that creates it. Times are milliseconds of one clock. */
module RateLimit {
  import opened Wrappers

  /** A counter and when its key expires, if EXPIRE was set. */
  datatype Counter = Counter(count: nat, expiresAt: Option<nat>)

  type Key = (string, nat)
  type Counters = map<Key, Counter>

  /** `at`: the clock read that picks the window; `hit`: when Redis runs the INCR.
      `redisOk`: INCR succeeds; `expire`: when Redis runs the EXPIRE, if one is sent,
      and nothing if that fails. */
  datatype Request = Request(ip: string, at: nat, hit: nat, redisOk: bool, expire: Option<nat>)

  datatype Config = Config(limit: nat, window: nat)

  /** The Unix second divided by the window's whole seconds. */
  function WindowOf(at: nat, window: nat): nat
    requires window > 0
  {
    (at / 1000) / window
  }

  function KeyOf(r: Request, cfg: Config): Key
    requires cfg.window > 0
  {
    (r.ip, WindowOf(r.at, cfg.window))
  }

  /** What GET would show: an expired key is gone. */
  function Shown(cs: Counters, k: Key, at: nat): nat {
    if k in cs && (cs[k].expiresAt.None? || at < cs[k].expiresAt.value) then cs[k].count else 0
  }

  function ExpiryOf(r: Request, window: nat): Option<nat> {
    if r.expire.Some? then Some(r.expire.value + 1000 * window) else None
  }

  function Check(cs: Counters, r: Request, cfg: Config): (Counters, bool)
    requires cfg.window > 0
  {
    if !r.redisOk then (cs, true)
    else
      var k := KeyOf(r, cfg);
      var n := Shown(cs, k, r.hit) + 1;
      var expiry := if n > 1 then cs[k].expiresAt else ExpiryOf(r, cfg.window);
      (cs[k := Counter(n, expiry)], n <= cfg.limit)
  }

  function After(reqs: seq<Request>, cfg: Config): Counters
    requires cfg.window > 0
  {
    if reqs == [] then map[] else Check(After(reqs[..|reqs| - 1], cfg), reqs[|reqs| - 1], cfg).0
  }

  predicate Admitted(reqs: seq<Request>, i: nat, cfg: Config)
    requires cfg.window > 0 && i < |reqs|
  {
    Check(After(reqs[..i], cfg), reqs[i], cfg).1
  }

  // ----- When expiry matters -----

  predicate IsArrival(r: Request, k: Key, window: nat)
    requires window > 0
  {
    r.redisOk && k == (r.ip, WindowOf(r.at, window))
  }

  /** The requests of a client in a window that reached Redis: what a counter that
      never expires would show. */
  function Arrivals(reqs: seq<Request>, k: Key, window: nat): nat
    requires window > 0
  {
    if reqs == [] then 0
    else Arrivals(reqs[..|reqs| - 1], k, window) + if IsArrival(reqs[|reqs| - 1], k, window) then 1 else 0
  }

  /** The arrival that created the key. */
  function Opener(reqs: seq<Request>, k: Key, window: nat): Option<Request>
    requires window > 0
  {
    if reqs == [] then None
    else
      var before, last := Opener(reqs[..|reqs| - 1], k, window), reqs[|reqs| - 1];
      if before.None? && IsArrival(last, k, window) then Some(last) else before
  }

  /** The INCR comes less than the window's length after the EXPIRE sent by the request
      that created the key, or that EXPIRE failed. */
  predicate InTime(r: Request, opener: Option<Request>, window: nat) {
    opener.None? || opener.value.expire.None? || r.hit < opener.value.expire.value + 1000 * window
  }

  ghost predicate AllInTime(reqs: seq<Request>, k: Key, window: nat)
    requires window > 0
  {
    forall i :: 0 <= i < |reqs| && IsArrival(reqs[i], k, window) ==>
      InTime(reqs[i], Opener(reqs[..i], k, window), window)
  }

  lemma AllInTimeBefore(reqs: seq<Request>, k: Key, window: nat, n: nat)
    requires window > 0 && n <= |reqs| && AllInTime(reqs, k, window)
    ensures AllInTime(reqs[..n], k, window)
  {
    forall i | 0 <= i < n && IsArrival(reqs[i], k, window)
      ensures InTime(reqs[i], Opener(reqs[..n][..i], k, window), window)
    {
      assert reqs[..n][..i] == reqs[..i];
    }
  }

  /** The key's counter when every arrival so far was in time. */
  ghost predicate Faithful(cs: Counters, reqs: seq<Request>, k: Key, window: nat)
    requires window > 0
  {
    match Opener(reqs, k, window)
    case None => k !in cs && Arrivals(reqs, k, window) == 0
    case Some(r) =>
      && Arrivals(reqs, k, window) > 0 && k in cs
      && cs[k] == Counter(Arrivals(reqs, k, window), ExpiryOf(r, window))
  }

  /** The next arrival is shown the true count exactly if it is in time. */
  lemma FaithfulShown(cs: Counters, reqs: seq<Request>, r: Request, k: Key, window: nat)
    requires window > 0 && Faithful(cs, reqs, k, window)
    ensures Shown(cs, k, r.hit) ==
            if InTime(r, Opener(reqs, k, window), window) then Arrivals(reqs, k, window) else 0
    ensures !InTime(r, Opener(reqs, k, window), window) ==> Arrivals(reqs, k, window) > 0
  {
  }

  lemma {:induction false} CountersFaithful(reqs: seq<Request>, k: Key, cfg: Config)
    requires cfg.window > 0 && AllInTime(reqs, k, cfg.window)
    ensures Faithful(After(reqs, cfg), reqs, k, cfg.window)
  {
    if reqs != [] {
      var before, r := reqs[..|reqs| - 1], reqs[|reqs| - 1];
      AllInTimeBefore(reqs, k, cfg.window, |before|);
      CountersFaithful(before, k, cfg);
      if IsArrival(r, k, cfg.window) {
        FaithfulShown(After(before, cfg), before, r, k, cfg.window);
      }
    }
  }

  /** Redis shows each arrival of the key how many came before it. */
  ghost predicate Exact(reqs: seq<Request>, k: Key, cfg: Config)
    requires cfg.window > 0
  {
    forall i :: 0 <= i < |reqs| && IsArrival(reqs[i], k, cfg.window) ==>
      Shown(After(reqs[..i], cfg), k, reqs[i].hit) == Arrivals(reqs[..i], k, cfg.window)
  }

  /** One request at a time. */
  lemma AllInTimeOneMore(reqs: seq<Request>, k: Key, window: nat)
    requires window > 0 && reqs != []
    ensures var before, r := reqs[..|reqs| - 1], reqs[|reqs| - 1];
            AllInTime(reqs, k, window) <==>
            AllInTime(before, k, window) && (IsArrival(r, k, window) ==> InTime(r, Opener(before, k, window), window))
  {
    var n := |reqs| - 1;
    assert forall i :: 0 <= i < n ==> reqs[..n][i] == reqs[i] && reqs[..n][..i] == reqs[..i];
  }

  lemma {:induction false} InTimeIfExact(reqs: seq<Request>, k: Key, cfg: Config, n: nat)
    requires cfg.window > 0 && n <= |reqs| && Exact(reqs, k, cfg)
    ensures AllInTime(reqs[..n], k, cfg.window)
  {
    if n > 0 {
      InTimeIfExact(reqs, k, cfg, n - 1);
      var before, r := reqs[..n - 1], reqs[n - 1];
      CountersFaithful(before, k, cfg);
      FaithfulShown(After(before, cfg), before, r, k, cfg.window);
      assert reqs[..n][..n - 1] == before;
      AllInTimeOneMore(reqs[..n], k, cfg.window);
    }
  }

  /** Expiry changes nothing if and only if every arrival of the key is in time: then,
      and only then, the counter with a TTL shows what one that never expires would. */
  lemma ExpiryNeverMatters(reqs: seq<Request>, k: Key, cfg: Config)
    requires cfg.window > 0
    ensures Exact(reqs, k, cfg) <==> AllInTime(reqs, k, cfg.window)
  {
    assert reqs[..|reqs|] == reqs;
    if Exact(reqs, k, cfg) {
      InTimeIfExact(reqs, k, cfg, |reqs|);
    }
    if AllInTime(reqs, k, cfg.window) {
      forall i | 0 <= i < |reqs| && IsArrival(reqs[i], k, cfg.window)
        ensures Shown(After(reqs[..i], cfg), k, reqs[i].hit) == Arrivals(reqs[..i], k, cfg.window)
      {
        AllInTimeBefore(reqs, k, cfg.window, i);
        CountersFaithful(reqs[..i], k, cfg);
        FaithfulShown(After(reqs[..i], cfg), reqs[..i], reqs[i], k, cfg.window);
      }
    }
  }

  /** Each arrival of the key is admitted when fewer than `limit` came before it. */
  ghost predicate Ideal(reqs: seq<Request>, k: Key, cfg: Config)
    requires cfg.window > 0
  {
    forall i :: 0 <= i < |reqs| && IsArrival(reqs[i], k, cfg.window) ==>
      (Admitted(reqs, i, cfg) <==> Arrivals(reqs[..i], k, cfg.window) < cfg.limit)
  }

  /** Every arrival of the key is in time, or lateness cannot show, because the limit is
      never reached or nothing is ever admitted. */
  ghost predicate Unaffected(reqs: seq<Request>, k: Key, cfg: Config)
    requires cfg.window > 0
  {
    AllInTime(reqs, k, cfg.window) || Arrivals(reqs, k, cfg.window) <= cfg.limit || cfg.limit == 0
  }

  /** The counter never runs ahead of the arrivals, and is behind once one was late. */
  lemma {:induction false} CounterBehind(reqs: seq<Request>, k: Key, cfg: Config)
    requires cfg.window > 0
    ensures k in After(reqs, cfg) ==> After(reqs, cfg)[k].count <= Arrivals(reqs, k, cfg.window)
    ensures !AllInTime(reqs, k, cfg.window) ==>
              k in After(reqs, cfg) && After(reqs, cfg)[k].count < Arrivals(reqs, k, cfg.window)
  {
    if reqs != [] {
      var before, r := reqs[..|reqs| - 1], reqs[|reqs| - 1];
      CounterBehind(before, k, cfg);
      AllInTimeOneMore(reqs, k, cfg.window);
      if IsArrival(r, k, cfg.window) && AllInTime(before, k, cfg.window) {
        CountersFaithful(before, k, cfg);
        FaithfulShown(After(before, cfg), before, r, k, cfg.window);
      }
    }
  }

  /** So whatever the ideal limiter admits is admitted. */
  lemma AdmitsNoLess(reqs: seq<Request>, k: Key, cfg: Config, i: nat)
    requires cfg.window > 0 && i < |reqs| && IsArrival(reqs[i], k, cfg.window)
    requires Arrivals(reqs[..i], k, cfg.window) < cfg.limit
    ensures Admitted(reqs, i, cfg)
  {
    CounterBehind(reqs[..i], k, cfg);
  }

  lemma {:induction false} ArrivalsGrow(reqs: seq<Request>, k: Key, window: nat, i: nat)
    requires window > 0 && i < |reqs| && IsArrival(reqs[i], k, window)
    ensures Arrivals(reqs[..i], k, window) < Arrivals(reqs, k, window)
  {
    var n := |reqs| - 1;
    if i < n {
      ArrivalsGrow(reqs[..n], k, window, i);
      assert reqs[..n][..i] == reqs[..i];
    }
  }

  lemma {:induction false} FirstLate(reqs: seq<Request>, k: Key, window: nat) returns (i: nat)
    requires window > 0 && !AllInTime(reqs, k, window)
    ensures i < |reqs| && IsArrival(reqs[i], k, window) && AllInTime(reqs[..i], k, window)
    ensures !InTime(reqs[i], Opener(reqs[..i], k, window), window)
  {
    var n := |reqs| - 1;
    AllInTimeOneMore(reqs, k, window);
    if AllInTime(reqs[..n], k, window) {
      i := n;
    } else {
      i := FirstLate(reqs[..n], k, window);
      assert reqs[..n][..i] == reqs[..i];
    }
  }

  /** The arrival that `count` others came before. */
  lemma {:induction false} NthArrival(reqs: seq<Request>, k: Key, window: nat, count: nat) returns (i: nat)
    requires window > 0 && count < Arrivals(reqs, k, window)
    ensures i < |reqs| && IsArrival(reqs[i], k, window) && Arrivals(reqs[..i], k, window) == count
  {
    var n := |reqs| - 1;
    if Arrivals(reqs[..n], k, window) == count {
      i := n;
    } else {
      i := NthArrival(reqs[..n], k, window, count);
      assert reqs[..n][..i] == reqs[..i];
    }
  }

  /** Otherwise some arrival is admitted that should not be. */
  lemma LatenessShows(reqs: seq<Request>, k: Key, cfg: Config) returns (i: nat)
    requires cfg.window > 0 && !Unaffected(reqs, k, cfg)
    ensures i < |reqs| && IsArrival(reqs[i], k, cfg.window)
    ensures Admitted(reqs, i, cfg) && Arrivals(reqs[..i], k, cfg.window) >= cfg.limit
  {
    var late := FirstLate(reqs, k, cfg.window);
    if Arrivals(reqs[..late], k, cfg.window) >= cfg.limit {
      i := late;
      CountersFaithful(reqs[..i], k, cfg);
      FaithfulShown(After(reqs[..i], cfg), reqs[..i], reqs[i], k, cfg.window);
    } else {
      i := NthArrival(reqs, k, cfg.window, cfg.limit);
      if i < late {
        assert reqs[..late][..i] == reqs[..i];
        ArrivalsGrow(reqs[..late], k, cfg.window, i);
      } else {
        assert late != i && reqs[..i][..late] == reqs[..late] && reqs[..i][late] == reqs[late];
        CounterBehind(reqs[..i], k, cfg);
      }
    }
  }

  /** The decisions at one limit are the ideal ones if and only if every arrival of the
      key is in time, or no more than `limit` arrive, or the limit is zero. */
  lemma DecisionsAreIdeal(reqs: seq<Request>, k: Key, cfg: Config)
    requires cfg.window > 0
    ensures Ideal(reqs, k, cfg) <==> Unaffected(reqs, k, cfg)
  {
    if Unaffected(reqs, k, cfg) {
      ExpiryNeverMatters(reqs, k, cfg);
      forall i | 0 <= i < |reqs| && IsArrival(reqs[i], k, cfg.window)
        ensures Admitted(reqs, i, cfg) <==> Arrivals(reqs[..i], k, cfg.window) < cfg.limit
      {
        ArrivalsGrow(reqs, k, cfg.window, i);
        if Arrivals(reqs[..i], k, cfg.window) < cfg.limit {
          AdmitsNoLess(reqs, k, cfg, i);
        }
      }
    } else {
      var i := LatenessShows(reqs, k, cfg);
    }
  }

  /** And at every limit if and only if every arrival is in time. */
  lemma IdealAtEveryLimit(reqs: seq<Request>, k: Key, window: nat)
    requires window > 0
    ensures (forall limit: nat :: Ideal(reqs, k, Config(limit, window))) <==> AllInTime(reqs, k, window)
  {
    if AllInTime(reqs, k, window) {
      forall limit: nat ensures Ideal(reqs, k, Config(limit, window)) {
        DecisionsAreIdeal(reqs, k, Config(limit, window));
      }
    } else {
      var late := FirstLate(reqs, k, window);
      CountersFaithful(reqs[..late], k, Config(1, window));
      ArrivalsGrow(reqs, k, window, late);
      DecisionsAreIdeal(reqs, k, Config(1, window));
      assert !Ideal(reqs, k, Config(1, window));
    }
  }

  // ----- A simpler condition -----

  lemma WindowBounds(at: nat, window: nat)
    requires window > 0
    ensures WindowOf(at, window) * (1000 * window) <= at < (WindowOf(at, window) + 1) * (1000 * window)
  {
  }

  lemma Multiples(a: nat, b: nat, w: nat)
    requires a <= b
    ensures a * w <= b * w
  {
  }

  lemma WindowOrder(a: nat, b: nat, window: nat)
    requires window > 0 && a <= b
    ensures WindowOf(a, window) <= WindowOf(b, window)
  {
    WindowBounds(a, window);
    WindowBounds(b, window);
    var x, y, w := WindowOf(a, window), WindowOf(b, window), 1000 * window;
    if y < x {
      Multiples(y + 1, x, w);
    }
  }

  /** The INCR comes before the window picked for it ends, and no later than the EXPIRE. */
  ghost predicate Prompt(r: Request, window: nat)
    requires window > 0
  {
    && r.at <= r.hit < (WindowOf(r.at, window) + 1) * (1000 * window)
    && (r.expire.Some? ==> r.hit <= r.expire.value)
  }

  lemma {:induction false} OpenerArrived(reqs: seq<Request>, k: Key, window: nat)
    requires window > 0 && Opener(reqs, k, window).Some?
    ensures Opener(reqs, k, window).value in reqs && IsArrival(Opener(reqs, k, window).value, k, window)
  {
    if Opener(reqs[..|reqs| - 1], k, window).Some? {
      OpenerArrived(reqs[..|reqs| - 1], k, window);
    }
  }

  lemma PromptPair(first: nat, r: Request, window: nat, id: nat)
    requires window > 0 && id * (1000 * window) <= first && Prompt(r, window) && WindowOf(r.at, window) == id
    ensures r.hit < first + 1000 * window
  {
    assert (id + 1) * (1000 * window) == id * (1000 * window) + 1000 * window;
  }

  /** Arrivals whose INCR lands in the window they read are in time. */
  lemma PromptIsInTime(reqs: seq<Request>, k: Key, window: nat)
    requires window > 0
    requires forall r :: r in reqs && IsArrival(r, k, window) ==> Prompt(r, window)
    ensures AllInTime(reqs, k, window)
  {
    forall i | 0 <= i < |reqs| && IsArrival(reqs[i], k, window)
      ensures InTime(reqs[i], Opener(reqs[..i], k, window), window)
    {
      if Opener(reqs[..i], k, window).Some? {
        var first := Opener(reqs[..i], k, window).value;
        OpenerArrived(reqs[..i], k, window);
        WindowBounds(first.at, window);
        assert first in reqs && reqs[i] in reqs && Prompt(first, window);
        if first.expire.Some? { PromptPair(first.expire.value, reqs[i], window, k.1); }
      }
    }
  }

  // ----- Bounds -----

  /** The admitted requests, among those that reached Redis, that `p` selects. */
  function Passed(reqs: seq<Request>, cfg: Config, p: Request -> bool): nat
    requires cfg.window > 0
  {
    if reqs == [] then 0
    else
      var n := |reqs| - 1;
      Passed(reqs[..n], cfg, p) + if reqs[n].redisOk && Admitted(reqs, n, cfg) && p(reqs[n]) then 1 else 0
  }

  function InWindow(k: Key, window: nat): Request -> bool
    requires window > 0
  {
    (r: Request) => r.ip == k.0 && WindowOf(r.at, window) == k.1
  }

  function InWindows(ip: string, lo: nat, count: nat, window: nat): Request -> bool
    requires window > 0
  {
    (r: Request) => r.ip == ip && lo <= WindowOf(r.at, window) < lo + count
  }

  function InInterval(ip: string, from: nat, length: nat): Request -> bool {
    (r: Request) => r.ip == ip && from <= r.at < from + length
  }

  function Min(a: nat, b: nat): nat {
    if a < b then a else b
  }

  lemma IdealOneMore(reqs: seq<Request>, k: Key, cfg: Config)
    requires cfg.window > 0 && reqs != []
    ensures var n := |reqs| - 1;
            Ideal(reqs, k, cfg) <==>
            && Ideal(reqs[..n], k, cfg)
            && (IsArrival(reqs[n], k, cfg.window) ==>
                  (Admitted(reqs, n, cfg) <==> Arrivals(reqs[..n], k, cfg.window) < cfg.limit))
  {
    var n := |reqs| - 1;
    assert forall i :: 0 <= i < n ==> reqs[..n][i] == reqs[i] && reqs[..n][..i] == reqs[..i];
  }

  lemma {:induction false} PassedIfIdeal(reqs: seq<Request>, k: Key, cfg: Config)
    requires cfg.window > 0
    ensures Passed(reqs, cfg, InWindow(k, cfg.window)) >= Min(Arrivals(reqs, k, cfg.window), cfg.limit)
    ensures Passed(reqs, cfg, InWindow(k, cfg.window)) == Min(Arrivals(reqs, k, cfg.window), cfg.limit) <==>
            Ideal(reqs, k, cfg)
  {
    if reqs != [] {
      var n := |reqs| - 1;
      PassedIfIdeal(reqs[..n], k, cfg);
      IdealOneMore(reqs, k, cfg);
      if IsArrival(reqs[n], k, cfg.window) && Arrivals(reqs[..n], k, cfg.window) < cfg.limit {
        AdmitsNoLess(reqs, k, cfg, n);
      }
    }
  }

  /** Admissions of a client in a window are never fewer than min(arrivals, limit), and
      are exactly that if and only if lateness cannot show. */
  lemma PassedPerWindow(reqs: seq<Request>, k: Key, cfg: Config)
    requires cfg.window > 0
    ensures Passed(reqs, cfg, InWindow(k, cfg.window)) >= Min(Arrivals(reqs, k, cfg.window), cfg.limit)
    ensures Passed(reqs, cfg, InWindow(k, cfg.window)) == Min(Arrivals(reqs, k, cfg.window), cfg.limit) <==>
            Unaffected(reqs, k, cfg)
  {
    PassedIfIdeal(reqs, k, cfg);
    DecisionsAreIdeal(reqs, k, cfg);
  }

  lemma {:induction false} PassedSplits(reqs: seq<Request>, cfg: Config, p: Request -> bool, q: Request -> bool,
                                        both: Request -> bool)
    requires cfg.window > 0 && forall r :: both(r) ==> p(r) || q(r)
    ensures Passed(reqs, cfg, both) <= Passed(reqs, cfg, p) + Passed(reqs, cfg, q)
  {
    if reqs != [] {
      PassedSplits(reqs[..|reqs| - 1], cfg, p, q, both);
    }
  }

  lemma {:induction false} PassedWiden(reqs: seq<Request>, cfg: Config, p: Request -> bool, q: Request -> bool)
    requires cfg.window > 0 && forall r :: p(r) ==> q(r)
    ensures Passed(reqs, cfg, p) <= Passed(reqs, cfg, q)
  {
    if reqs != [] {
      PassedWiden(reqs[..|reqs| - 1], cfg, p, q);
    }
  }

  lemma Times(n: nat, v: nat)
    requires n > 0
    ensures n * v == (n - 1) * v + v
  {
  }

  lemma OneMoreWindow(reqs: seq<Request>, ip: string, lo: nat, count: nat, cfg: Config)
    requires cfg.window > 0 && count > 0 && Unaffected(reqs, (ip, lo + (count - 1)), cfg)
    ensures Passed(reqs, cfg, InWindows(ip, lo, count, cfg.window)) <=
            Passed(reqs, cfg, InWindows(ip, lo, count - 1, cfg.window)) + cfg.limit
  {
    var last := (ip, lo + (count - 1));
    PassedPerWindow(reqs, last, cfg);
    PassedSplits(reqs, cfg, InWindows(ip, lo, count - 1, cfg.window), InWindow(last, cfg.window),
                 InWindows(ip, lo, count, cfg.window));
  }

  lemma {:induction false} PassedPerWindows(reqs: seq<Request>, ip: string, lo: nat, count: nat, cfg: Config)
    requires cfg.window > 0
    requires forall id :: lo <= id < lo + count ==> Unaffected(reqs, (ip, id), cfg)
    ensures Passed(reqs, cfg, InWindows(ip, lo, count, cfg.window)) <= count * cfg.limit
    decreases count
  {
    if count == 0 {
      NonePassed(reqs, cfg, InWindows(ip, lo, 0, cfg.window));
    } else {
      PassedPerWindows(reqs, ip, lo, count - 1, cfg);
      assert Unaffected(reqs, (ip, lo + (count - 1)), cfg);
      OneMoreWindow(reqs, ip, lo, count, cfg);
      Times(count, cfg.limit);
    }
  }

  lemma {:induction false} NonePassed(reqs: seq<Request>, cfg: Config, p: Request -> bool)
    requires cfg.window > 0 && forall r :: !p(r)
    ensures Passed(reqs, cfg, p) == 0
  {
    if reqs != [] {
      NonePassed(reqs[..|reqs| - 1], cfg, p);
    }
  }

  /** An interval no longer than `n` windows meets at most `n + 1` of them. */
  lemma WindowsMet(from: nat, length: nat, n: nat, window: nat)
    requires window > 0 && 0 < length <= n * (1000 * window)
    ensures WindowOf(from + length - 1, window) <= WindowOf(from, window) + n
  {
    var lo, hi, w := WindowOf(from, window), WindowOf(from + length - 1, window), 1000 * window;
    WindowBounds(from, window);
    WindowBounds(from + length - 1, window);
    assert (lo + n + 1) * w == (lo + 1) * w + n * w;
    if hi > lo + n {
      Multiples(lo + n + 1, hi, w);
    }
  }

  lemma IntervalInWindows(ip: string, from: nat, length: nat, n: nat, window: nat, r: Request)
    requires window > 0 && length <= n * (1000 * window) && InInterval(ip, from, length)(r)
    ensures InWindows(ip, WindowOf(from, window), n + 1, window)(r)
  {
    WindowsMet(from, length, n, window);
    WindowOrder(from, r.at, window);
    WindowOrder(r.at, from + length - 1, window);
  }

  /** The sliding bound: in any interval no longer than `n` windows, at most
      (n + 1) * limit of a client's requests pass, for every sequence of requests in
      which lateness shows in none of the client's windows that the interval meets. */
  lemma SlidingBound(reqs: seq<Request>, ip: string, from: nat, length: nat, n: nat, cfg: Config)
    requires cfg.window > 0 && length <= n * (1000 * cfg.window)
    requires var lo := WindowOf(from, cfg.window);
             forall id :: lo <= id < lo + (n + 1) ==> Unaffected(reqs, (ip, id), cfg)
    ensures Passed(reqs, cfg, InInterval(ip, from, length)) <= (n + 1) * cfg.limit
  {
    var lo, met, some := WindowOf(from, cfg.window), InInterval(ip, from, length), n + 1;
    var windows := InWindows(ip, lo, some, cfg.window);
    forall r | met(r) ensures windows(r) {
      IntervalInWindows(ip, from, length, n, cfg.window, r);
    }
    PassedWiden(reqs, cfg, met, windows);
    PassedPerWindows(reqs, ip, lo, some, cfg);
  }

  function Arrival(ip: string, at: nat): Request {
    Request(ip, at, at, true, Some(at))
  }

  function Repeat(r: Request, count: nat): seq<Request> {
    if count == 0 then [] else Repeat(r, count - 1) + [r]
  }

  /** `limit` requests at one moment, and as many at the next. */
  function Burst(ip: string, limit: nat, moment: nat): seq<Request> {
    Repeat(Arrival(ip, moment), limit) + Repeat(Arrival(ip, moment + 1), limit)
  }

  lemma {:induction false} ArrivalsConcat(a: seq<Request>, b: seq<Request>, k: Key, window: nat)
    requires window > 0
    ensures Arrivals(a + b, k, window) == Arrivals(a, k, window) + Arrivals(b, k, window)
  {
    if b == [] {
      assert a + b == a;
    } else {
      var n := |b| - 1;
      assert (a + b)[..|a| + n] == a + b[..n];
      ArrivalsConcat(a, b[..n], k, window);
    }
  }

  lemma ArrivalsOneMore(reqs: seq<Request>, r: Request, k: Key, window: nat)
    requires window > 0
    ensures Arrivals(reqs + [r], k, window) == Arrivals(reqs, k, window) + if IsArrival(r, k, window) then 1 else 0
    ensures Opener(reqs + [r], k, window) ==
            if Opener(reqs, k, window).None? && IsArrival(r, k, window) then Some(r) else Opener(reqs, k, window)
  {
    assert (reqs + [r])[..|reqs|] == reqs;
  }

  lemma {:induction false} RepeatIsAll(r: Request, count: nat)
    ensures |Repeat(r, count)| == count && forall x :: x in Repeat(r, count) ==> x == r
  {
    if count > 0 {
      RepeatIsAll(r, count - 1);
    }
  }

  lemma {:induction false} RepeatArrives(r: Request, count: nat, k: Key, window: nat, arrives: bool)
    requires window > 0 && arrives == IsArrival(r, k, window)
    ensures Arrivals(Repeat(r, count), k, window) == if arrives then count else 0
    ensures Opener(Repeat(r, count), k, window) == if count > 0 && arrives then Some(r) else None
  {
    if count > 0 {
      RepeatArrives(r, count - 1, k, window, arrives);
      ArrivalsOneMore(Repeat(r, count - 1), r, k, window);
    }
  }

  /** A burst astride two windows meets the limit in both. */
  lemma BurstInWindow(ip: string, cfg: Config, moment: nat, id: nat)
    requires cfg.window > 0 && WindowOf(moment, cfg.window) != WindowOf(moment + 1, cfg.window)
    requires id == WindowOf(moment, cfg.window) || id == WindowOf(moment + 1, cfg.window)
    ensures Passed(Burst(ip, cfg.limit, moment), cfg, InWindow((ip, id), cfg.window)) == cfg.limit
  {
    var first, second := Arrival(ip, moment), Arrival(ip, moment + 1);
    RepeatArrives(first, cfg.limit, (ip, id), cfg.window, IsArrival(first, (ip, id), cfg.window));
    RepeatArrives(second, cfg.limit, (ip, id), cfg.window, IsArrival(second, (ip, id), cfg.window));
    ArrivalsConcat(Repeat(first, cfg.limit), Repeat(second, cfg.limit), (ip, id), cfg.window);
    PassedPerWindow(Burst(ip, cfg.limit, moment), (ip, id), cfg);
  }

  lemma {:induction false} PassedApart(reqs: seq<Request>, cfg: Config, p: Request -> bool, q: Request -> bool,
                                       both: Request -> bool)
    requires cfg.window > 0 && forall r :: r in reqs ==> !(p(r) && q(r)) && (both(r) <==> p(r) || q(r))
    ensures Passed(reqs, cfg, both) == Passed(reqs, cfg, p) + Passed(reqs, cfg, q)
  {
    if reqs != [] {
      var n := |reqs| - 1;
      assert reqs[n] in reqs;
      PassedApart(reqs[..n], cfg, p, q, both);
    }
  }

  lemma BurstPasses(ip: string, cfg: Config, moment: nat, lo: nat, hi: nat)
    requires cfg.window > 0 && lo == WindowOf(moment, cfg.window) && hi == WindowOf(moment + 1, cfg.window) && lo != hi
    ensures Passed(Burst(ip, cfg.limit, moment), cfg, InInterval(ip, moment, 2)) == 2 * cfg.limit
  {
    var reqs, p := Burst(ip, cfg.limit, moment), InInterval(ip, moment, 2);
    var first, second := InWindow((ip, lo), cfg.window), InWindow((ip, hi), cfg.window);
    BurstInWindow(ip, cfg, moment, lo);
    BurstInWindow(ip, cfg, moment, hi);
    forall r | r in reqs ensures !(first(r) && second(r)) && (p(r) <==> first(r) || second(r)) {
      RepeatIsAll(Arrival(ip, moment), cfg.limit);
      RepeatIsAll(Arrival(ip, moment + 1), cfg.limit);
    }
    PassedApart(reqs, cfg, first, second, p);
  }

  /** The bound is met: for every limit and window, twice the limit passes within two
      milliseconds astride a window's end, so the limiter is no sliding-window limiter. */
  lemma BoundIsTight(ip: string, cfg: Config)
    requires cfg.window > 0
    ensures exists reqs, from :: Passed(reqs, cfg, InInterval(ip, from, 2)) == 2 * cfg.limit
  {
    var moment := 1000 * cfg.window - 1;
    assert WindowOf(moment, cfg.window) == 0 by {
      assert moment / 1000 == cfg.window - 1;
    }
    assert WindowOf(moment + 1, cfg.window) == 1 by {
      assert (moment + 1) / 1000 == cfg.window;
    }
    BurstPasses(ip, cfg, moment, 0, 1);
  }

  lemma FirstWindow(ip: string, at: nat, window: nat)
    requires window > 0 && at < 1000 * window
    ensures WindowOf(at, window) == 0
  {
    assert at / 1000 < window;
  }

  lemma RepeatInTime(r: Request, count: nat, k: Key, window: nat)
    requires window > 0 && IsArrival(r, k, window) && (r.expire.Some? ==> r.hit <= r.expire.value)
    ensures AllInTime(Repeat(r, count), k, window)
  {
    var reqs := Repeat(r, count);
    RepeatIsAll(r, count);
    forall i | 0 <= i < |reqs| ensures InTime(reqs[i], Opener(reqs[..i], k, window), window) {
      assert reqs[i] in reqs;
      if Opener(reqs[..i], k, window).Some? {
        OpenerArrived(reqs[..i], k, window);
        assert Opener(reqs[..i], k, window).value in reqs;
      }
    }
  }

  /** After `limit` requests at once, any late one passes. */
  lemma LatePasses(first: Request, late: Request, k: Key, cfg: Config)
    requires cfg.window > 0 && cfg.limit > 0
    requires IsArrival(first, k, cfg.window) && first.expire.Some? && first.hit <= first.expire.value
    requires IsArrival(late, k, cfg.window) && late.hit >= first.expire.value + 1000 * cfg.window
    ensures var before := Repeat(first, cfg.limit);
            && Arrivals(before, k, cfg.window) == cfg.limit == |before|
            && !Unaffected(before + [late], k, cfg)
            && Admitted(before + [late], cfg.limit, cfg)
  {
    var before, reqs := Repeat(first, cfg.limit), Repeat(first, cfg.limit) + [late];
    RepeatIsAll(first, cfg.limit);
    RepeatArrives(first, cfg.limit, k, cfg.window, true);
    RepeatInTime(first, cfg.limit, k, cfg.window);
    ArrivalsOneMore(before, late, k, cfg.window);
    assert reqs[..cfg.limit] == before && reqs[cfg.limit] == late;
    AllInTimeOneMore(reqs, k, cfg.window);
    CountersFaithful(before, k, cfg);
    FaithfulShown(After(before, cfg), before, late, k, cfg.window);
  }

  /** Lateness can show: after `limit` requests at the start of a window, one that reads
      the clock in its last millisecond but reaches Redis in the next, or at any time
      later, finds the key expired and passes as well. */
  lemma LateRequestPasses(ip: string, cfg: Config, hit: nat)
    requires cfg.window > 0 && cfg.limit > 0 && hit >= 1000 * cfg.window
    ensures var late := Request(ip, 1000 * cfg.window - 1, hit, true, None);
            var before := Repeat(Arrival(ip, 0), cfg.limit);
            && Arrivals(before, KeyOf(late, cfg), cfg.window) == cfg.limit == |before|
            && !Unaffected(before + [late], KeyOf(late, cfg), cfg)
            && Admitted(before + [late], cfg.limit, cfg)
  {
    FirstWindow(ip, 0, cfg.window);
    FirstWindow(ip, 1000 * cfg.window - 1, cfg.window);
    LatePasses(Arrival(ip, 0), Request(ip, 1000 * cfg.window - 1, hit, true, None), (ip, 0), cfg);
  }

  // ----- The middleware -----

  class Limiter {
    const cfg: Config
    var counters: Counters

    constructor (limit: nat, window: nat)
      requires window > 0
      ensures cfg == Config(limit, window) && counters == map[]
    {
      cfg := Config(limit, window);
      counters := map[];
    }

    method Incr(k: Key, at: nat) returns (count: nat)
      modifies this
      ensures count == Shown(old(counters), k, at) + 1
      ensures counters == old(counters)[k := Counter(count, if count > 1 then old(counters)[k].expiresAt else None)]
    {
      count := Shown(counters, k, at) + 1;
      counters := counters[k := Counter(count, if count > 1 then counters[k].expiresAt else None)];
    }

    method Handle(r: Request) returns (admitted: bool)
      requires cfg.window > 0
      modifies this
      ensures (counters, admitted) == Check(old(counters), r, cfg)
      ensures !r.redisOk ==> admitted && counters == old(counters)
    {
      if !r.redisOk {
        return true;
      }
      var key := (r.ip, r.at / 1000 / cfg.window);
      var count := Incr(key, r.hit);
      if count == 1 && r.expire.Some? {
        counters := counters[key := counters[key].(expiresAt := Some(r.expire.value + 1000 * cfg.window))];
      }
      assert counters == Check(old(counters), r, cfg).0;
      if count > cfg.limit {
        return false;
      }
      return true;
    }
  }
}

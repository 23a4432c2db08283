/** The service for calls that do not overlap is a special case of the interleaved
    protocol: every call of RbacService is a sequence of CacheProtocol's steps. */
module Refinement {
  import opened Relations
  import P = CacheProtocol
  import S = RbacService
  import opened Wrappers

  /** The protocol's state between calls: the same tables and the same cached sets. */
  ghost predicate Shows(p: P.State, s: S.Sys) {
    && |p.hist| > 0 && P.Current(p) == s.store.db && p.procs == map[]
    && p.cache.Keys == s.redis.sets.Keys
    && forall u :: u in p.cache ==>
         p.cache[u].perms == s.redis.sets[u].perms && p.cache[u].expiresAt == s.redis.sets[u].expiresAt
  }

  /** The steps lead from `p` to `p'`, each fill sets at the instant it reads, and,
      if `careful`, no user's deletion is lost on the way. */
  ghost predicate Leads(p: P.State, steps: seq<P.Step>, p': P.State, careful: bool)
    decreases |steps|
  {
    if steps == [] then p == p'
    else
      && P.Enabled(p, steps[0]) && P.FillWithin(p, steps[0], 0)
      && (careful ==> forall u :: P.Spares(p, steps[0], u))
      && Leads(P.Next(p, steps[0]), steps[1..], p', careful)
  }

  lemma {:induction false} LessCareful(p: P.State, steps: seq<P.Step>, p': P.State, a: bool, b: bool)
    requires Leads(p, steps, p', a) && (b ==> a)
    ensures Leads(p, steps, p', b)
    decreases |steps|
  {
    if steps != [] {
      LessCareful(P.Next(p, steps[0]), steps[1..], p', a, b);
    }
  }

  lemma {:induction false} LeadsOn(p: P.State, a: seq<P.Step>, m: P.State, b: seq<P.Step>, p': P.State,
                                   first: bool, second: bool, careful: bool)
    requires Leads(p, a, m, first) && Leads(m, b, p', second) && (careful ==> first && second)
    ensures Leads(p, a + b, p', careful)
    decreases |a|
  {
    if a == [] {
      assert a + b == b;
      LessCareful(m, b, p', second, careful);
    } else {
      assert (a + b)[1..] == a[1..] + b;
      LeadsOn(P.Next(p, a[0]), a[1..], m, b, p', first, second, careful);
    }
  }

  lemma LeadsFirst(p: P.State, a: P.Step, b: seq<P.Step>, p': P.State, careful: bool)
    requires P.Enabled(p, a) && P.FillWithin(p, a, 0) && (careful ==> forall u :: P.Spares(p, a, u))
    requires Leads(P.Next(p, a), b, p', careful)
    ensures Leads(p, [a] + b, p', careful)
  {
    assert ([a] + b)[1..] == b;
  }

  // ----- Mutators -----

  /** A mutator left with `pending` keys deletes them, but for those in `fails`, and ends. */
  lemma {:induction false} DeletesAll(p: P.State, i: nat, fails: set<UserId>) returns (steps: seq<P.Step>)
    requires |p.hist| > 0 && i in p.procs && p.procs[i].Deleting?
    ensures Leads(p, steps, p.(cache := p.cache - (p.procs[i].pending - fails), procs := p.procs - {i}),
                  p.procs[i].pending !! fails)
    decreases p.procs[i].pending
  {
    var pending := p.procs[i].pending;
    var careful := pending !! fails;
    var end := p.(cache := p.cache - (pending - fails), procs := p.procs - {i});
    if pending == {} {
      assert p.cache - (pending - fails) == p.cache;
      assert Leads(P.Next(p, P.Abandon(i)), [], end, careful);
      LeadsFirst(p, P.Abandon(i), [], end, careful);
      steps := [P.Abandon(i)] + [];
    } else {
      var u :| u in pending;
      var a := if u in fails then P.DelFails(i, u) else P.DelSucceeds(i, u);
      var m := P.Next(p, a);
      var rest := DeletesAll(m, i, fails);
      assert m.procs - {i} == p.procs - {i};
      assert m.cache - ((pending - {u}) - fails) == p.cache - (pending - fails);
      LessCareful(m, rest, end, (pending - {u}) !! fails, careful);
      LeadsFirst(p, a, rest, end, careful);
      steps := [a] + rest;
    }
  }

  lemma CommitShows(p: P.State, s: S.Sys, c: S.Call)
    requires Shows(p, s) && s.cached && c.Mutate? && IsMutator(c.write) && S.Do(s, c).1 == S.Mutated(None)
    ensures P.Enabled(p, P.Commit(0, c.write))
    ensures var m, st := P.Next(p, P.Commit(0, c.write)), S.Do(s, c).0.store;
            P.Current(m) == st.db && m.cache == p.cache && 0 in m.procs && m.procs - {0} == map[]
  {
  }

  /** The state a mutator ends in, once it has deleted the keys in `gone`. */
  lemma DeletionShows(p: P.State, s: S.Sys, end: P.State, s': S.Sys, gone: set<UserId>)
    requires Shows(p, s) && |end.hist| > 0 && P.Current(end) == s'.store.db && end.procs == map[]
    requires end.cache == p.cache - gone && s'.redis.sets == s.redis.sets - gone
    ensures Shows(end, s')
  {
  }

  /** What a mutator does once it has committed. */
  lemma {:induction false} InvalidateIsSteps(m: P.State, c: S.Call, gone: set<UserId>) returns (steps: seq<P.Step>)
    requires |m.hist| > 0 && c.Mutate? && IsMutator(c.write) && 0 in m.procs
    requires m.procs[0] == if c.write.Attach? then P.Listing(c.write.role) else P.Deleting({c.write.user})
    requires gone == S.ToDelete(P.Current(m), c.write, c.listOk, c.delFails)
    ensures Leads(m, steps, m.(cache := m.cache - gone, procs := m.procs - {0}), S.Undisturbed(c))
  {
    var careful := S.Undisturbed(c);
    var end := m.(cache := m.cache - gone, procs := m.procs - {0});
    if c.write.Attach? && !c.listOk {
      assert m.cache - gone == m.cache;
      LeadsFirst(m, P.Abandon(0), [], end, careful);
      steps := [P.Abandon(0)] + [];
    } else if c.write.Attach? {
      var n := P.Next(m, P.ListUsers(0));
      assert n.procs[0].pending - c.delFails == gone && n.procs - {0} == m.procs - {0};
      var deletes := DeletesAll(n, 0, c.delFails);
      LessCareful(n, deletes, end, n.procs[0].pending !! c.delFails, careful);
      LeadsFirst(m, P.ListUsers(0), deletes, end, careful);
      steps := [P.ListUsers(0)] + deletes;
    } else {
      assert m.procs[0].pending - c.delFails == gone;
      steps := DeletesAll(m, 0, c.delFails);
      LessCareful(m, steps, end, m.procs[0].pending !! c.delFails, careful);
    }
  }

  lemma {:induction false} MutateIsSteps(p: P.State, s: S.Sys, c: S.Call) returns (steps: seq<P.Step>, p': P.State)
    requires Shows(p, s) && s.cached && c.Mutate? && IsMutator(c.write)
    ensures Leads(p, steps, p', S.Undisturbed(c)) && Shows(p', S.Do(s, c).0)
    ensures p'.answers == p.answers && p'.now == p.now
  {
    var s' := S.Do(s, c).0;
    if S.Do(s, c).1 != S.Mutated(None) {
      return [], p;
    }
    var commit := P.Commit(0, c.write);
    CommitShows(p, s, c);
    var m := P.Next(p, commit);
    var gone := S.ToDelete(s'.store.db, c.write, c.listOk, c.delFails);
    p' := m.(cache := m.cache - gone, procs := m.procs - {0});
    var rest := InvalidateIsSteps(m, c, gone);
    LeadsFirst(p, commit, rest, p', S.Undisturbed(c));
    steps := [commit] + rest;
    DeletionShows(p, s, p', s', gone);
  }

  // ----- Authorize -----

  /** What the protocol records of a call. */
  function AnswersOf(c: S.Call, r: S.Reply): seq<P.Answer> {
    if c.Authorize? && r.Answered? && r.allowed.Ok? then [P.Answer(c.user, c.name, r.allowed.value, c.now)] else []
  }

  /** The states of a fill: missed, fetched, done. */
  lemma FillShows(p: P.State, s: S.Sys, c: S.Call)
    requires Shows(p, s) && s.cached && c.Authorize? && p.now == c.now && !(c.getOk && S.Hit(s.redis, c.user, c.now))
    requires c.readOk
    ensures P.Enabled(p, P.GetMiss(0, c.user, c.name))
    ensures var p1, read := P.Next(p, P.GetMiss(0, c.user, c.name)), P.ReadPermissions(0);
            P.Enabled(p1, read) &&
            var p2, last := P.Next(p1, read), if c.setOk then P.SetSucceeds(0) else P.SetFails(0);
            && P.Enabled(p2, last) && P.FillWithin(p2, last, 0)
            && Shows(P.Next(p2, last), S.Do(s, c).0)
            && P.Next(p2, last).answers == p.answers + AnswersOf(c, S.Do(s, c).1) && P.Next(p2, last).now == p.now
  {
    var p2 := P.Next(P.Next(p, P.GetMiss(0, c.user, c.name)), P.ReadPermissions(0));
    assert P.Next(p2, if c.setOk then P.SetSucceeds(0) else P.SetFails(0)).procs == map[];
  }

  /** A miss that cannot be answered leaves no trace. */
  lemma UnreadShows(p: P.State, s: S.Sys, c: S.Call)
    requires Shows(p, s) && s.cached && c.Authorize? && p.now == c.now && !(c.getOk && S.Hit(s.redis, c.user, c.now))
    requires !c.readOk
    ensures P.Enabled(p, P.GetMiss(0, c.user, c.name))
    ensures var p1 := P.Next(p, P.GetMiss(0, c.user, c.name));
            && P.Enabled(p1, P.Abandon(0)) && (forall u :: P.Spares(p1, P.Abandon(0), u))
            && P.Next(p1, P.Abandon(0)) == p && S.Do(s, c).0 == s && AnswersOf(c, S.Do(s, c).1) == []
  {
    assert P.Next(P.Next(p, P.GetMiss(0, c.user, c.name)), P.Abandon(0)).procs == map[];
  }

  lemma {:induction false} MissIsSteps(p: P.State, s: S.Sys, c: S.Call) returns (steps: seq<P.Step>, p': P.State)
    requires Shows(p, s) && s.cached && c.Authorize? && p.now == c.now && !(c.getOk && S.Hit(s.redis, c.user, c.now))
    ensures Leads(p, steps, p', true) && Shows(p', S.Do(s, c).0)
    ensures p'.answers == p.answers + AnswersOf(c, S.Do(s, c).1) && p'.now == p.now
  {
    var miss, read := P.GetMiss(0, c.user, c.name), P.ReadPermissions(0);
    var p1 := P.Next(p, miss);
    var rest: seq<P.Step>;
    if !c.readOk {
      UnreadShows(p, s, c);
      LeadsFirst(p1, P.Abandon(0), [], p, true);
      rest, p' := [P.Abandon(0)] + [], p;
    } else {
      FillShows(p, s, c);
      var p2, last := P.Next(p1, read), if c.setOk then P.SetSucceeds(0) else P.SetFails(0);
      p' := P.Next(p2, last);
      LeadsFirst(p2, last, [], p', true);
      LeadsFirst(p1, read, [last] + [], p', true);
      rest := [read] + ([last] + []);
    }
    LeadsFirst(p, miss, rest, p', true);
    steps := [miss] + rest;
  }

  lemma {:induction false} AuthorizeIsSteps(p: P.State, s: S.Sys, c: S.Call) returns (steps: seq<P.Step>, p': P.State)
    requires Shows(p, s) && s.cached && c.Authorize? && p.now <= c.now
    ensures Leads(p, steps, p', true) && Shows(p', S.Do(s, c).0)
    ensures p'.answers == p.answers + AnswersOf(c, S.Do(s, c).1) && p'.now == c.now
  {
    var tick := P.Tick(c.now - p.now);
    var p1 := P.Next(p, tick);
    var rest: seq<P.Step>;
    if c.getOk && S.Hit(s.redis, c.user, c.now) {
      var hit := P.GetHit(c.user, c.name);
      p' := P.Next(p1, hit);
      LeadsFirst(p1, hit, [], p', true);
      rest := [hit] + [];
    } else {
      rest, p' := MissIsSteps(p1, s, c);
    }
    LeadsFirst(p, tick, rest, p', true);
    steps := [tick] + rest;
  }

  // ----- Every call -----

  /** Every call of the service with a cache is a sequence of the protocol's steps, with
      the same effect on tables and cache and the same answer; if no deletion failed,
      its steps lose none. */
  lemma {:induction false} CallIsSteps(p: P.State, s: S.Sys, c: S.Call) returns (steps: seq<P.Step>, p': P.State)
    requires Shows(p, s) && s.cached && S.WellFormed(c) && (c.Authorize? ==> p.now <= c.now)
    ensures Leads(p, steps, p', S.Undisturbed(c)) && Shows(p', S.Do(s, c).0)
    ensures p'.answers == p.answers + AnswersOf(c, S.Do(s, c).1)
    ensures p'.now == if c.Authorize? then c.now else p.now
  {
    match c
    case Mutate(_, _, _, _) =>
      steps, p' := MutateIsSteps(p, s, c);
    case Authorize(_, _, _, _, _, _) =>
      steps, p' := AuthorizeIsSteps(p, s, c);
    case Expire(u) =>
      p' := P.Next(p, P.Evict(u));
      LeadsFirst(p, P.Evict(u), [], p', true);
      steps := [P.Evict(u)] + [];
  }

  /** The commits that no deletion follows are one step. */
  lemma QuietCommitIsStep(p: P.State, s: S.Sys, w: Write)
    requires Shows(p, s) && Apply(s.store.db, w).Ok?
    ensures P.Enabled(p, P.CommitQuietly(w)) && Shows(P.Next(p, P.CommitQuietly(w)), S.Quietly(s, w))
  {
  }

  /** The clock does not go back from one Authorize to the next. */
  predicate Timely(now: nat, calls: seq<S.Call>)
    decreases |calls|
  {
    calls != [] ==>
      if calls[0].Authorize? then now <= calls[0].now && Timely(calls[0].now, calls[1..]) else Timely(now, calls[1..])
  }

  function Answers(calls: seq<S.Call>, replies: seq<S.Reply>): seq<P.Answer>
    requires |calls| == |replies|
  {
    if calls == [] then [] else AnswersOf(calls[0], replies[0]) + Answers(calls[1..], replies[1..])
  }

  lemma AnswersUnfold(s: S.Sys, calls: seq<S.Call>)
    requires calls != [] && forall c :: c in calls ==> S.WellFormed(c)
    ensures var (s1, r) := S.Do(s, calls[0]);
            && |S.Replies(s, calls)| == |calls| && |S.Replies(s1, calls[1..])| == |calls[1..]|
            && Answers(calls, S.Replies(s, calls)) ==
                 AnswersOf(calls[0], r) + Answers(calls[1..], S.Replies(s1, calls[1..]))
  {
    S.RepliesLength(s, calls);
    S.RepliesLength(S.Do(s, calls[0]).0, calls[1..]);
    S.RepliesUnfold(s, calls);
  }

  lemma Reassociate(a: seq<P.Answer>, b: seq<P.Answer>, c: seq<P.Answer>)
    ensures (a + b) + c == a + (b + c)
  {
  }

  ghost predicate AllUndisturbed(calls: seq<S.Call>) {
    forall c :: c in calls ==> S.Undisturbed(c)
  }

  lemma {:induction false} CallsAreSteps(p: P.State, s: S.Sys, calls: seq<S.Call>)
    returns (steps: seq<P.Step>, p': P.State)
    requires Shows(p, s) && s.cached && (forall c :: c in calls ==> S.WellFormed(c)) && Timely(p.now, calls)
    ensures |S.Replies(s, calls)| == |calls|
    ensures Leads(p, steps, p', AllUndisturbed(calls)) && Shows(p', S.After(s, calls))
    ensures p'.answers == p.answers + Answers(calls, S.Replies(s, calls))
    decreases |calls|
  {
    S.RepliesLength(s, calls);
    if calls == [] {
      return [], p;
    }
    var c, rest := calls[0], calls[1..];
    var first, m := CallIsSteps(p, s, c);
    var others, end := CallsAreSteps(m, S.Do(s, c).0, rest);
    assert AllUndisturbed(calls) ==> S.Undisturbed(c) && AllUndisturbed(rest);
    LeadsOn(p, first, m, others, end, S.Undisturbed(c), AllUndisturbed(rest), AllUndisturbed(calls));
    AnswersUnfold(s, calls);
    var (s1, reply) := S.Do(s, c);
    Reassociate(p.answers, AnswersOf(c, reply), Answers(rest, S.Replies(s1, rest)));
    steps, p' := first + others, end;
  }

  // ----- Whole runs -----

  lemma {:induction false} LeadsIsTrace(p: P.State, steps: seq<P.Step>, p': P.State, careful: bool)
    returns (trace: seq<P.State>)
    requires Leads(p, steps, p', careful)
    ensures |trace| == |steps| + 1 && trace[0] == p && trace[|steps|] == p'
    ensures forall i :: 0 <= i < |steps| ==>
              && P.Enabled(trace[i], steps[i]) && trace[i + 1] == P.Next(trace[i], steps[i])
              && P.FillWithin(trace[i], steps[i], 0)
    ensures careful ==> forall i, u :: 0 <= i < |steps| ==> P.Spares(trace[i], steps[i], u)
    decreases |steps|
  {
    if steps == [] {
      trace := [p];
    } else {
      var rest := LeadsIsTrace(P.Next(p, steps[0]), steps[1..], p', careful);
      trace := [p] + rest;
      assert forall i :: 1 <= i < |steps| ==> steps[i] == steps[1..][i - 1] && trace[i] == rest[i - 1];
    }
  }

  /** So every sequence of completed calls, whatever fails, is a run of the protocol, on
      which its theorems hold: Coherence for a user none of whose deletions is lost, and
      the staleness bound, which is the TTL itself since fills take no time here. */
  lemma {:induction false} ServiceRuns(s: S.Sys, now: nat, calls: seq<S.Call>)
    returns (trace: seq<P.State>, steps: seq<P.Step>)
    requires s.cached && s.redis.sets == map[] && Consistent(s.store.db)
    requires (forall c :: c in calls ==> S.WellFormed(c)) && Timely(now, calls)
    ensures |S.Replies(s, calls)| == |calls|
    ensures P.Run(trace, steps) && P.FillsWithin(trace, steps, 0)
    ensures Shows(trace[|steps|], S.After(s, calls))
    ensures trace[|steps|].answers == Answers(calls, S.Replies(s, calls))
    ensures AllUndisturbed(calls) ==> forall u :: P.SparedSince(trace, steps, 0, |steps|, u)
    ensures forall x :: x in trace[|steps|].answers ==> P.Justified(trace[|steps|], x, P.PERMISSION_TTL)
  {
    var p := P.State(now, [P.Version(s.store.db, now)], map[], map[], []);
    var p';
    steps, p' := CallsAreSteps(p, s, calls);
    trace := LeadsIsTrace(p, steps, p', AllUndisturbed(calls));
    P.BoundedStaleness(trace, steps, |steps|, 0);
  }
}

/** Cache-aside authorization with synchronous invalidation, as interleaved steps.

    Every request is a process that takes one Redis or Postgres call per step, so
    any number of Authorize calls and mutators overlap in every possible order.
    The committed database states are kept in `hist`; the position and time of a
    fill's read and Set are history variables that no step looks at. */
module CacheProtocol {
  import opened Wrappers
  import opened Relations

  /** permissionTTL, in milliseconds. */
  const PERMISSION_TTL: nat := 600_000

  datatype Version = Version(db: Db, time: nat)

  /** A cached set, when its key expires, and the fill that wrote it: the version
      and time of its database read and of its Set. */
  datatype Entry = Entry(perms: set<string>, expiresAt: nat,
                         readAt: nat, readTime: nat, setAt: nat, setTime: nat)

  datatype Proc =
    | Missed(user: UserId, name: string)
    | Fetched(user: UserId, name: string, perms: set<string>, readAt: nat, readTime: nat)
    | Listing(role: RoleId)
    | Deleting(pending: set<UserId>)

  datatype Answer = Answer(user: UserId, name: string, allowed: bool, time: nat)

  datatype State = State(now: nat, hist: seq<Version>, cache: map<UserId, Entry>,
                         procs: map<nat, Proc>, answers: seq<Answer>)

  /** A miss covers an absent key, an expired key and a Redis error. A commit by
      `CommitQuietly` is one no cache deletion follows: DeleteRole,
      DeletePermission, the default role given by Signup, and row creation. */
  datatype Step =
    | Tick(elapsed: nat)
    | GetHit(user: UserId, name: string)
    | GetMiss(id: nat, user: UserId, name: string)
    | ReadPermissions(id: nat)
    | SetSucceeds(id: nat)
    | SetFails(id: nat)
    | Commit(id: nat, write: Write)
    | CommitQuietly(write: Write)
    | ListUsers(id: nat)
    | DelSucceeds(id: nat, user: UserId)
    | DelFails(id: nat, user: UserId)
    | Abandon(id: nat)
    | Evict(user: UserId)

  function Current(s: State): Db
    requires |s.hist| > 0
  {
    s.hist[|s.hist| - 1].db
  }

  predicate Enabled(s: State, a: Step) {
    |s.hist| > 0 &&
    match a
    case Tick(_) => true
    case GetHit(u, _) => u in s.cache && s.now < s.cache[u].expiresAt && s.cache[u].perms != {}
    case GetMiss(i, _, _) => i !in s.procs
    case ReadPermissions(i) => i in s.procs && s.procs[i].Missed?
    case SetSucceeds(i) => i in s.procs && s.procs[i].Fetched?
    case SetFails(i) => i in s.procs && s.procs[i].Fetched?
    case Commit(i, w) => i !in s.procs && IsMutator(w) && Apply(Current(s), w).Ok?
    case CommitQuietly(w) => Apply(Current(s), w).Ok?
    case ListUsers(i) => i in s.procs && s.procs[i].Listing?
    case DelSucceeds(i, u) => i in s.procs && s.procs[i].Deleting? && u in s.procs[i].pending
    case DelFails(i, u) => i in s.procs && s.procs[i].Deleting? && u in s.procs[i].pending
    case Abandon(i) => i in s.procs
    case Evict(_) => true
  }

  function Committed(s: State, w: Write): State
    requires |s.hist| > 0 && Apply(Current(s), w).Ok?
  {
    s.(hist := s.hist + [Version(Apply(Current(s), w).value, s.now)])
  }

  function Answered(s: State, u: UserId, name: string, allowed: bool): State {
    s.(answers := s.answers + [Answer(u, name, allowed, s.now)])
  }

  /** An empty result only writes the `:empty` sentinel, which no Get reads; the
      permission key keeps whatever it held. */
  function Filled(s: State, f: Proc): map<UserId, Entry>
    requires |s.hist| > 0 && f.Fetched?
  {
    if f.perms == {} then s.cache
    else s.cache[f.user := Entry(f.perms, s.now + PERMISSION_TTL, f.readAt, f.readTime, |s.hist| - 1, s.now)]
  }

  function Next(s: State, a: Step): State
    requires Enabled(s, a)
  {
    match a
    case Tick(d) => s.(now := s.now + d)
    case GetHit(u, name) => Answered(s, u, name, name in s.cache[u].perms)
    case GetMiss(i, u, name) => s.(procs := s.procs[i := Missed(u, name)])
    case ReadPermissions(i) =>
      var m := s.procs[i];
      s.(procs := s.procs[i := Fetched(m.user, m.name, Effective(Current(s), m.user), |s.hist| - 1, s.now)])
    case SetSucceeds(i) =>
      var f := s.procs[i];
      Answered(s.(cache := Filled(s, f), procs := s.procs - {i}), f.user, f.name, f.name in f.perms)
    case SetFails(i) =>
      var f := s.procs[i];
      Answered(s.(procs := s.procs - {i}), f.user, f.name, f.name in f.perms)
    case Commit(i, w) =>
      Committed(s, w).(procs := s.procs[i := if w.Attach? then Listing(w.role) else Deleting({w.user})])
    case CommitQuietly(w) => Committed(s, w)
    case ListUsers(i) => s.(procs := s.procs[i := Deleting(UsersForRole(Current(s), s.procs[i].role))])
    case DelSucceeds(i, u) =>
      s.(cache := s.cache - {u}, procs := s.procs[i := Deleting(s.procs[i].pending - {u})])
    case DelFails(i, u) => s.(procs := s.procs[i := Deleting(s.procs[i].pending - {u})])
    case Abandon(i) => s.(procs := s.procs - {i})
    case Evict(u) => s.(cache := s.cache - {u})
  }

  ghost predicate Init(s: State) {
    && |s.hist| == 1 && Consistent(s.hist[0].db) && s.hist[0].time <= s.now
    && s.cache == map[] && s.procs == map[] && s.answers == []
  }

  ghost predicate Run(trace: seq<State>, steps: seq<Step>) {
    && |trace| == |steps| + 1 && Init(trace[0])
    && forall i :: 0 <= i < |steps| ==> Enabled(trace[i], steps[i]) && trace[i + 1] == Next(trace[i], steps[i])
  }

  // ----- What every run keeps -----

  /** Version `k` was the committed database at time `t`. */
  ghost predicate CurrentAt(hist: seq<Version>, k: nat, t: nat) {
    k < |hist| && hist[k].time <= t && (k + 1 < |hist| ==> t <= hist[k + 1].time)
  }

  /** `perms` is what the join returned for `u` when it was read. */
  ghost predicate ReadFrom(s: State, u: UserId, perms: set<string>, readAt: nat, readTime: nat) {
    CurrentAt(s.hist, readAt, readTime) && readTime <= s.now && perms == Effective(s.hist[readAt].db, u)
  }

  ghost predicate GoodEntry(s: State, u: UserId) {
    u in s.cache ==>
      var e := s.cache[u];
      && ReadFrom(s, u, e.perms, e.readAt, e.readTime)
      && e.readAt <= e.setAt < |s.hist| && e.readTime <= e.setTime <= s.now
      && e.expiresAt == e.setTime + PERMISSION_TTL && e.perms != {}
  }

  ghost predicate GoodProc(s: State, i: nat) {
    i in s.procs && s.procs[i].Fetched? ==>
      ReadFrom(s, s.procs[i].user, s.procs[i].perms, s.procs[i].readAt, s.procs[i].readTime)
  }

  ghost predicate GoodHistory(s: State) {
    && |s.hist| > 0
    && (forall k :: 0 <= k < |s.hist| ==> s.hist[k].time <= s.now && Consistent(s.hist[k].db))
    && (forall j, k :: 0 <= j <= k < |s.hist| ==> s.hist[j].time <= s.hist[k].time)
  }

  ghost predicate Inv(s: State) {
    && GoodHistory(s)
    && (forall u :: GoodEntry(s, u))
    && (forall i :: GoodProc(s, i))
  }

  /** A commit keeps what was known of older versions. */
  lemma CommitKeepsReads(s: State, s': State, u: UserId, perms: set<string>, readAt: nat, readTime: nat)
    requires Inv(s) && ReadFrom(s, u, perms, readAt, readTime)
    requires s'.now >= s.now
    requires s'.hist == s.hist || exists v :: s'.hist == s.hist + [v] && v.time == s.now
    ensures ReadFrom(s', u, perms, readAt, readTime)
  {
  }

  lemma StepKeepsHistory(s: State, a: Step)
    requires GoodHistory(s) && Enabled(s, a)
    ensures GoodHistory(Next(s, a))
    ensures var s' := Next(s, a);
            && s'.now >= s.now
            && (s'.hist == s.hist || exists v :: s'.hist == s.hist + [v] && v.time == s.now)
  {
    if a.Commit? || a.CommitQuietly? {
      ApplyKeepsConsistent(Current(s), a.write);
      assert Next(s, a).hist == s.hist + [Version(Apply(Current(s), a.write).value, s.now)];
    }
  }

  lemma StepKeepsEntry(s: State, a: Step, u: UserId)
    requires Inv(s) && Enabled(s, a)
    ensures GoodEntry(Next(s, a), u)
  {
    var s' := Next(s, a);
    StepKeepsHistory(s, a);
    assert GoodEntry(s, u);
    if a.SetSucceeds? && s.procs[a.id].user == u && s.procs[a.id].perms != {} {
      assert GoodProc(s, a.id);
    } else if u in s'.cache {
      assert u in s.cache && s'.cache[u] == s.cache[u];
      CommitKeepsReads(s, s', u, s.cache[u].perms, s.cache[u].readAt, s.cache[u].readTime);
    }
  }

  lemma StepKeepsProc(s: State, a: Step, i: nat)
    requires Inv(s) && Enabled(s, a)
    ensures GoodProc(Next(s, a), i)
  {
    var s' := Next(s, a);
    StepKeepsHistory(s, a);
    assert GoodProc(s, i);
    if i in s'.procs && s'.procs[i].Fetched? && !(a.ReadPermissions? && a.id == i) {
      assert i in s.procs && s'.procs[i] == s.procs[i];
      CommitKeepsReads(s, s', s.procs[i].user, s.procs[i].perms, s.procs[i].readAt, s.procs[i].readTime);
    }
  }

  lemma StepKeepsInv(s: State, a: Step)
    requires Inv(s) && Enabled(s, a)
    ensures Inv(Next(s, a))
  {
    StepKeepsHistory(s, a);
    forall u ensures GoodEntry(Next(s, a), u) {
      StepKeepsEntry(s, a, u);
    }
    forall i ensures GoodProc(Next(s, a), i) {
      StepKeepsProc(s, a, i);
    }
  }

  lemma {:induction false} RunKeepsInv(trace: seq<State>, steps: seq<Step>, n: nat)
    requires Run(trace, steps) && n < |trace|
    ensures Inv(trace[n])
  {
    if n > 0 {
      RunKeepsInv(trace, steps, n - 1);
      StepKeepsInv(trace[n - 1], steps[n - 1]);
    }
  }

  // ----- Coherence -----

  /** A mutator that has committed is still going to delete the user's key. */
  predicate Covers(p: Proc, db: Db, u: UserId) {
    (p.Deleting? && u in p.pending) || (p.Listing? && (u, p.role) in db.userRoles)
  }

  ghost predicate Covered(s: State, u: UserId)
    requires |s.hist| > 0
  {
    exists i :: i in s.procs && Covers(s.procs[i], Current(s), u)
  }

  /** The change of tables takes nothing from the user and gives nothing. */
  ghost predicate Leaves(db: Db, db': Db, u: UserId) {
    && Effective(db', u) == Effective(db, u)
    && forall r :: (u, r) in db.userRoles ==> (u, r) in db'.userRoles
  }

  /** The step loses no deletion of the user's key: none fails, no mutator that covers
      the user leaves, and a commit no deletion follows leaves the user alone. */
  ghost predicate Spares(s: State, a: Step, u: UserId) {
    && Enabled(s, a)
    && (a.CommitQuietly? ==> Leaves(Current(s), Apply(Current(s), a.write).value, u))
    && (a.DelFails? ==> a.user != u)
    && (a.Abandon? ==> !Covers(s.procs[a.id], Current(s), u))
  }

  /** The user is not cached, or nothing was committed since the Set. */
  ghost predicate Fresh(s: State, u: UserId) {
    u in s.cache ==> s.cache[u].setAt + 1 == |s.hist|
  }

  /** No commit after version `from` changed the user's join. */
  ghost predicate StableSince(hist: seq<Version>, u: UserId, from: nat)
  {
    from < |hist| && forall k :: from <= k < |hist| ==> Effective(hist[k].db, u) == Effective(hist[from].db, u)
  }

  /** The commit that produced version `k` changed the user's join. */
  predicate Changes(hist: seq<Version>, u: UserId, k: nat)
    requires 0 < k < |hist|
  {
    Effective(hist[k].db, u) != Effective(hist[k - 1].db, u)
  }

  /** A commit changing the user fell between the fill's read and its Set. */
  ghost predicate Raced(hist: seq<Version>, u: UserId, e: Entry) {
    exists k :: e.readAt < k <= e.setAt && k < |hist| && Changes(hist, u, k)
  }

  ghost predicate Tracked(s: State, u: UserId)
    requires |s.hist| > 0
  {
    u in s.cache ==> Covered(s, u) || StableSince(s.hist, u, s.cache[u].setAt)
  }

  lemma CoverageKept(s: State, a: Step, u: UserId)
    requires Inv(s) && Spares(s, a, u) && Covered(s, u) && u in Next(s, a).cache
    requires !(a.SetSucceeds? && s.procs[a.id].user == u && s.procs[a.id].perms != {})
    ensures Covered(Next(s, a), u)
  {
    var s' := Next(s, a);
    var i :| i in s.procs && Covers(s.procs[i], Current(s), u);
    if a.Commit? && s.procs[i].Listing? && a.write == Remove(u, s.procs[i].role) {
      assert Covers(s'.procs[a.id], Current(s'), u);
    } else if a.ListUsers? && a.id == i {
      assert (u, s.procs[i].role).0 == u;
      assert u in UsersForRole(Current(s), s.procs[i].role);
      assert Covers(s'.procs[i], Current(s'), u);
    } else {
      assert i in s'.procs && Covers(s'.procs[i], Current(s'), u);
    }
  }

  lemma StepKeepsTracked(s: State, a: Step, u: UserId)
    requires Inv(s) && Spares(s, a, u) && Tracked(s, u)
    ensures |Next(s, a).hist| > 0 && Tracked(Next(s, a), u)
  {
    var s' := Next(s, a);
    if u in s'.cache {
      if a.SetSucceeds? && s.procs[a.id].user == u && s.procs[a.id].perms != {} {
        assert s'.cache[u].setAt == |s'.hist| - 1;
      } else if Covered(s, u) {
        CoverageKept(s, a, u);
      } else if a.Commit? && Effective(Current(s'), u) != Effective(Current(s), u) {
        InvalidationIsEnough(Current(s), a.write, u);
        if a.write.Attach? {
          var k :| k in Current(s').userRoles && k.1 == a.write.role && k.0 == u;
          assert k == (u, a.write.role);
        }
        assert Covers(s'.procs[a.id], Current(s'), u);
      }
    }
  }

  lemma FreshIsTracked(s: State, u: UserId)
    requires |s.hist| > 0 && Fresh(s, u)
    ensures Tracked(s, u)
  {
  }

  /** No deletion of the user's key is lost in steps `from` to `n - 1`, at whose start
      the user was not cached or the entry was fresh. */
  ghost predicate SparedSince(trace: seq<State>, steps: seq<Step>, from: nat, n: nat, u: UserId)
    requires Run(trace, steps) && n < |trace|
  {
    from <= n && Fresh(trace[from], u) && forall i :: from <= i < n ==> Spares(trace[i], steps[i], u)
  }

  lemma {:induction false} RunKeepsTracked(trace: seq<State>, steps: seq<Step>, from: nat, n: nat, u: UserId)
    requires Run(trace, steps) && n < |trace| && SparedSince(trace, steps, from, n, u)
    ensures Inv(trace[n]) && Tracked(trace[n], u)
    decreases n
  {
    if from == n {
      RunKeepsInv(trace, steps, n);
      FreshIsTracked(trace[n], u);
    } else {
      RunKeepsTracked(trace, steps, from, n - 1, u);
      StepKeepsInv(trace[n - 1], steps[n - 1]);
      StepKeepsTracked(trace[n - 1], steps[n - 1], u);
    }
  }

  lemma {:induction false} UnchangedBetween(hist: seq<Version>, u: UserId, from: nat, to: nat)
    requires from <= to < |hist|
    requires forall k :: from < k <= to ==> !Changes(hist, u, k)
    ensures Effective(hist[to].db, u) == Effective(hist[from].db, u)
  {
    if from < to {
      UnchangedBetween(hist, u, from, to - 1);
      assert !Changes(hist, u, to);
    }
  }

  /** Coherence. In every interleaving of Authorize with Assign, Remove and Attach,
      whatever happens to other users' keys, a cached set that differs from the user's
      join right now is about to be deleted by a mutator that has committed, or was
      written by a fill that read before, and Set after, a commit changing that user. */
  lemma Coherence(trace: seq<State>, steps: seq<Step>, from: nat, n: nat, u: UserId)
    requires Run(trace, steps) && n < |trace| && SparedSince(trace, steps, from, n, u)
    requires u in trace[n].cache
    ensures |trace[n].hist| > 0
    ensures trace[n].cache[u].perms != Effective(Current(trace[n]), u) ==>
              Covered(trace[n], u) || Raced(trace[n].hist, u, trace[n].cache[u])
  {
    RunKeepsTracked(trace, steps, from, n, u);
    var s := trace[n];
    var e := s.cache[u];
    assert GoodEntry(s, u);
    if !Raced(s.hist, u, e) {
      UnchangedBetween(s.hist, u, e.readAt, e.setAt);
    }
  }

  /** The race is the only one, and it is exact: when no deletion of the user's key was
      lost and none is outstanding, the cached set is the current join if and only if
      the join was the same when the fill read it and when the fill wrote it. */
  lemma RaceIsExact(trace: seq<State>, steps: seq<Step>, from: nat, n: nat, u: UserId)
    requires Run(trace, steps) && n < |trace| && SparedSince(trace, steps, from, n, u)
    requires u in trace[n].cache
    ensures |trace[n].hist| > 0
    ensures trace[n].cache[u].readAt < |trace[n].hist| && trace[n].cache[u].setAt < |trace[n].hist|
    ensures !Covered(trace[n], u) ==>
              (trace[n].cache[u].perms == Effective(Current(trace[n]), u) <==>
               Effective(trace[n].hist[trace[n].cache[u].readAt].db, u) ==
               Effective(trace[n].hist[trace[n].cache[u].setAt].db, u))
  {
    RunKeepsTracked(trace, steps, from, n, u);
    assert GoodEntry(trace[n], u);
  }

  /** A first permission is never missed, even when it comes with a commit that
      invalidates nothing, as Signup's default role does, and overlaps a fill: if the
      user's join was empty in every version before `k`, then no entry read before
      `k` is cached, since empty sets are not. */
  lemma FirstPermissionIsSeen(trace: seq<State>, steps: seq<Step>, n: nat, u: UserId, k: nat)
    requires Run(trace, steps) && n < |trace| && k <= |trace[n].hist|
    requires forall j :: 0 <= j < k ==> Effective(trace[n].hist[j].db, u) == {}
    ensures u in trace[n].cache ==> trace[n].cache[u].readAt >= k
  {
    RunKeepsInv(trace, steps, n);
    assert GoodEntry(trace[n], u);
  }

  // ----- Bounded staleness, whatever fails -----

  /** A Set that is attempted comes at most `bound` after the fill's read. */
  predicate FillWithin(s: State, a: Step, bound: nat)
    requires Enabled(s, a)
  {
    a.SetSucceeds? || a.SetFails? ==> s.now <= s.procs[a.id].readTime + bound
  }

  ghost predicate FillsWithin(trace: seq<State>, steps: seq<Step>, bound: nat)
    requires Run(trace, steps)
  {
    forall i :: 0 <= i < |steps| ==> FillWithin(trace[i], steps[i], bound)
  }

  /** The answer is the truth of version `k`, committed at time `t`, less than `age` ago. */
  ghost predicate TrueAt(s: State, a: Answer, k: nat, t: nat, age: nat) {
    && CurrentAt(s.hist, k, t) && t <= a.time < t + age
    && (a.allowed <==> a.name in Effective(s.hist[k].db, a.user))
  }

  ghost predicate Justified(s: State, a: Answer, age: nat) {
    a.time <= s.now && exists k, t :: TrueAt(s, a, k, t, age)
  }

  ghost predicate SetsWithin(s: State, bound: nat) {
    forall u :: u in s.cache ==> s.cache[u].setTime <= s.cache[u].readTime + bound
  }

  lemma JustifiedKept(s: State, a: Step, x: Answer, age: nat)
    requires Inv(s) && Enabled(s, a) && Justified(s, x, age)
    ensures Justified(Next(s, a), x, age)
  {
    var k, t :| TrueAt(s, x, k, t, age);
    assert TrueAt(Next(s, a), x, k, t, age);
  }

  lemma NewAnswerJustified(s: State, a: Step, bound: nat)
    requires Inv(s) && Enabled(s, a) && SetsWithin(s, bound)
    requires (a.GetHit? || a.SetSucceeds? || a.SetFails?) && FillWithin(s, a, bound)
    ensures var s' := Next(s, a);
            |s'.answers| > 0 && Justified(s', s'.answers[|s'.answers| - 1], PERMISSION_TTL + bound)
  {
    var s' := Next(s, a);
    var x := s'.answers[|s'.answers| - 1];
    if a.GetHit? {
      assert GoodEntry(s, a.user);
      assert TrueAt(s', x, s.cache[a.user].readAt, s.cache[a.user].readTime, PERMISSION_TTL + bound);
    } else {
      assert GoodProc(s, a.id);
      assert TrueAt(s', x, s.procs[a.id].readAt, s.procs[a.id].readTime, PERMISSION_TTL + bound);
    }
  }

  ghost predicate AllJustified(s: State, age: nat) {
    forall x :: x in s.answers ==> Justified(s, x, age)
  }

  lemma SetsStayWithin(s: State, a: Step, bound: nat)
    requires Inv(s) && Enabled(s, a) && SetsWithin(s, bound) && FillWithin(s, a, bound)
    ensures SetsWithin(Next(s, a), bound)
  {
  }

  lemma StepKeepsJustified(s: State, a: Step, bound: nat)
    requires Inv(s) && Enabled(s, a) && SetsWithin(s, bound) && FillWithin(s, a, bound)
    requires AllJustified(s, PERMISSION_TTL + bound)
    ensures AllJustified(Next(s, a), PERMISSION_TTL + bound)
  {
    forall x | x in Next(s, a).answers ensures Justified(Next(s, a), x, PERMISSION_TTL + bound) {
      if x in s.answers {
        JustifiedKept(s, a, x, PERMISSION_TTL + bound);
      } else {
        NewAnswerJustified(s, a, bound);
      }
    }
  }

  /** Bounded staleness over every run, with failed deletions, abandoned mutators,
      unlisted roles, DeleteRole, DeletePermission, Signup and racing fills: each
      answer is the truth of a database state that was committed less than the
      ten-minute TTL plus the longest fill ago. */
  lemma {:induction false} BoundedStaleness(trace: seq<State>, steps: seq<Step>, n: nat, bound: nat)
    requires Run(trace, steps) && n < |trace| && FillsWithin(trace, steps, bound)
    ensures SetsWithin(trace[n], bound)
    ensures forall x :: x in trace[n].answers ==> Justified(trace[n], x, PERMISSION_TTL + bound)
  {
    if n > 0 {
      BoundedStaleness(trace, steps, n - 1, bound);
      RunKeepsInv(trace, steps, n - 1);
      SetsStayWithin(trace[n - 1], steps[n - 1], bound);
      StepKeepsJustified(trace[n - 1], steps[n - 1], bound);
    }
  }

  /** Whatever is lost, a permission the user has held in no version since `m` is
      denied, and one held in every version since `m` is allowed, once the TTL of ten
      minutes plus the longest fill has passed since `m` was committed. */
  lemma ChangeTakesEffect(trace: seq<State>, steps: seq<Step>, n: nat, bound: nat, m: nat, x: Answer, held: bool)
    requires Run(trace, steps) && n < |trace| && FillsWithin(trace, steps, bound)
    requires m < |trace[n].hist| && x in trace[n].answers
    requires forall k :: m <= k < |trace[n].hist| ==> (x.name in Effective(trace[n].hist[k].db, x.user) <==> held)
    requires x.time >= trace[n].hist[m].time + 600_000 + bound
    ensures x.allowed == held
  {
    BoundedStaleness(trace, steps, n, bound);
    RunKeepsInv(trace, steps, n);
    assert Justified(trace[n], x, PERMISSION_TTL + bound);
    var k: nat, t: nat :| TrueAt(trace[n], x, k, t, PERMISSION_TTL + bound);
    assert k >= m;
  }

  // ----- The bound is met -----

  /** A fill reads; the role is removed and the key deleted; after `delay` the fill
      sets; a Get comes in the last millisecond before the key expires. */
  function Race(u: UserId, r: RoleId, name: string, delay: nat): seq<Step> {
    [GetMiss(0, u, name), ReadPermissions(0), Commit(1, Remove(u, r)), DelSucceeds(1, u), Abandon(1),
     Tick(delay), SetSucceeds(0), Tick(PERMISSION_TTL - 1), GetHit(u, name)]
  }

  /** The states of that race, from the database `db`. */
  function RaceStates(db: Db, u: UserId, r: RoleId, name: string, delay: nat): seq<State> {
    var fetched := Fetched(u, name, Effective(db, u), 0, 0);
    var before := [Version(db, 0)];
    var after := before + [Version(RemoveRole(db, u, r), 0)];
    var filled := map[u := Entry(Effective(db, u), delay + PERMISSION_TTL, 0, 0, 1, delay)];
    var late := delay + PERMISSION_TTL - 1;
    var first := Answer(u, name, true, delay);
    [State(0, before, map[], map[], []),
     State(0, before, map[], map[0 := Missed(u, name)], []),
     State(0, before, map[], map[0 := fetched], []),
     State(0, after, map[], map[0 := fetched, 1 := Deleting({u})], []),
     State(0, after, map[], map[0 := fetched, 1 := Deleting({})], []),
     State(0, after, map[], map[0 := fetched], []),
     State(delay, after, map[], map[0 := fetched], []),
     State(delay, after, filled, map[], [first]),
     State(late, after, filled, map[], [first]),
     State(late, after, filled, map[], [first, Answer(u, name, true, late)])]
  }

  /** Steps 0 to 4 are the read, the mutator and its deletion. */
  lemma RaceBegins(db: Db, u: UserId, r: RoleId, name: string, delay: nat, i: nat)
    requires i < 5
    ensures var s, a := RaceStates(db, u, r, name, delay), Race(u, r, name, delay)[i];
            Enabled(s[i], a) && s[i + 1] == Next(s[i], a) && forall x :: Spares(s[i], a, x)
  {
    var s, a := RaceStates(db, u, r, name, delay)[i], Race(u, r, name, delay)[i];
    assert {u} - {u} == {};
    assert Next(s, a).procs == RaceStates(db, u, r, name, delay)[i + 1].procs;
  }

  /** Steps 5 to 8 are the late Set and the hit. */
  lemma RaceEnds(db: Db, u: UserId, r: RoleId, name: string, delay: nat, i: nat)
    requires 5 <= i < 9 && name in Effective(db, u)
    ensures var s, a := RaceStates(db, u, r, name, delay), Race(u, r, name, delay)[i];
            Enabled(s[i], a) && s[i + 1] == Next(s[i], a) && forall x :: Spares(s[i], a, x)
  {
  }

  /** The claim that the cache never serves a stale "allow" fails on every database
      from which removing one role takes a permission away, and the staleness bound
      cannot be lowered: no deletion is lost, nothing is in flight any more, no fill
      takes longer than `delay`, and a hit still allows, TTL + delay - 1 after the
      removal was committed, what the join has denied ever since. */
  lemma {:induction false} StaleAllow(db: Db, u: UserId, r: RoleId, name: string, delay: nat)
    requires Consistent(db) && name in Effective(db, u) && name !in Effective(RemoveRole(db, u, r), u)
    ensures var trace, steps := RaceStates(db, u, r, name, delay), Race(u, r, name, delay);
            && Run(trace, steps) && FillsWithin(trace, steps, delay)
            && (forall i, x :: 0 <= i < |steps| ==> Spares(trace[i], steps[i], x))
            && var s := trace[|steps|];
               && s.procs == map[] && |s.hist| == 2
               && Answer(u, name, true, s.hist[1].time + PERMISSION_TTL + delay - 1) in s.answers
               && name !in Effective(s.hist[1].db, u)
  {
    var trace, steps := RaceStates(db, u, r, name, delay), Race(u, r, name, delay);
    forall i | 0 <= i < |steps|
      ensures Enabled(trace[i], steps[i]) && trace[i + 1] == Next(trace[i], steps[i])
      ensures forall x :: Spares(trace[i], steps[i], x)
    {
      if i < 5 {
        RaceBegins(db, u, r, name, delay, i);
      } else {
        RaceEnds(db, u, r, name, delay, i);
      }
    }
    assert trace[9].answers[1] in trace[9].answers;
  }

  // ----- Every loss shows -----

  /** The ways to lose a deletion: it fails, its mutator dies before it, or the commit is
      one that no deletion follows. */
  datatype Loss = Failed | Died | Silent

  /** A fill; a commit that takes the permission away, with its deletion lost; a Get in
      the last millisecond before the key expires. */
  function Lossy(u: UserId, r: RoleId, name: string, how: Loss): seq<Step> {
    [GetMiss(0, u, name), ReadPermissions(0), SetSucceeds(0),
     if how.Silent? then CommitQuietly(DropRole(r)) else Commit(1, Remove(u, r)),
     if how.Failed? then DelFails(1, u) else Tick(0),
     if how.Silent? then Tick(0) else Abandon(1),
     Tick(PERMISSION_TTL - 1), GetHit(u, name)]
  }

  function LossyStates(db: Db, u: UserId, r: RoleId, name: string, how: Loss): seq<State> {
    var perms := Effective(db, u);
    var before := [Version(db, 0)];
    var after := before + [Version(if how.Silent? then DeleteRole(db, r) else RemoveRole(db, u, r), 0)];
    var filled := map[u := Entry(perms, PERMISSION_TTL, 0, 0, 0, 0)];
    var left := if how.Silent? then map[] else map[1 := Deleting(if how.Failed? then {} else {u})];
    var first, late := Answer(u, name, true, 0), PERMISSION_TTL - 1;
    [State(0, before, map[], map[], []),
     State(0, before, map[], map[0 := Missed(u, name)], []),
     State(0, before, map[], map[0 := Fetched(u, name, perms, 0, 0)], []),
     State(0, before, filled, map[], [first]),
     State(0, after, filled, if how.Silent? then map[] else map[1 := Deleting({u})], [first]),
     State(0, after, filled, left, [first]),
     State(0, after, filled, map[], [first]),
     State(late, after, filled, map[], [first]),
     State(late, after, filled, map[], [first, Answer(u, name, true, late)])]
  }

  lemma LossBegins(db: Db, u: UserId, r: RoleId, name: string, how: Loss, i: nat)
    requires i < 4 && name in Effective(db, u)
    ensures var s, a := LossyStates(db, u, r, name, how), Lossy(u, r, name, how)[i];
            Enabled(s[i], a) && s[i + 1] == Next(s[i], a) && FillWithin(s[i], a, 0)
  {
    var s, a := LossyStates(db, u, r, name, how)[i], Lossy(u, r, name, how)[i];
    assert Next(s, a).procs == LossyStates(db, u, r, name, how)[i + 1].procs;
  }

  lemma LossEnds(db: Db, u: UserId, r: RoleId, name: string, how: Loss, i: nat)
    requires 4 <= i < 8 && name in Effective(db, u)
    ensures var s, a := LossyStates(db, u, r, name, how), Lossy(u, r, name, how)[i];
            Enabled(s[i], a) && s[i + 1] == Next(s[i], a) && FillWithin(s[i], a, 0)
  {
    var s, a := LossyStates(db, u, r, name, how)[i], Lossy(u, r, name, how)[i];
    assert {u} - {u} == {};
    assert Next(s, a).procs == LossyStates(db, u, r, name, how)[i + 1].procs;
  }

  /** No way of losing a deletion is harmless: on every database where the user has a
      permission through one role only, each of them leaves a stale "allow" that is
      served, with no race, until the last millisecond of the TTL. */
  lemma {:induction false} LossServesStale(db: Db, u: UserId, r: RoleId, name: string, how: Loss)
    requires Consistent(db) && OnlyThrough(db, u, r, name)
    ensures var trace, steps := LossyStates(db, u, r, name, how), Lossy(u, r, name, how);
            && Run(trace, steps) && FillsWithin(trace, steps, 0)
            && var s := trace[|steps|];
               && s.procs == map[] && |s.hist| == 2 && s.hist[1].time == 0
               && Answer(u, name, true, 600_000 - 1) in s.answers
               && name !in Effective(s.hist[1].db, u)
               && u in s.cache && !Raced(s.hist, u, s.cache[u])
  {
    var trace, steps := LossyStates(db, u, r, name, how), Lossy(u, r, name, how);
    EffectiveIsJoin(db, u, name);
    RemoveTakesExactly(db, u, r, name);
    DeleteRoleTakesExactly(db, u, r, name);
    forall i | 0 <= i < |steps|
      ensures Enabled(trace[i], steps[i]) && trace[i + 1] == Next(trace[i], steps[i])
      ensures FillWithin(trace[i], steps[i], 0)
    {
      if i < 4 {
        LossBegins(db, u, r, name, how, i);
      } else {
        LossEnds(db, u, r, name, how, i);
      }
    }
    assert trace[8].answers[1] in trace[8].answers;
  }
}

/** The RBAC service for calls that do not overlap: transactions with their outbox
    events, the permission cache and Authorize. `Do` says what one call does to
    the whole system; the classes below are the service itself, each method
    proved to do just that. */
module RbacService {
  import opened Wrappers
  import opened Relations
  import CacheProtocol

  /** emptyTTL: how long the "no permissions" sentinel is kept, in milliseconds. */
  const SENTINEL_TTL: nat := 60_000

  datatype Event =
    | RoleAssigned(user: UserId, role: RoleId, assigner: UserId)
    | RoleRevoked(user: UserId, role: RoleId)
    | PermissionAttached(role: RoleId, perm: PermId)

  /** What one Postgres transaction works on. `outbox` lists events in commit order. */
  datatype Store = Store(db: Db, outbox: seq<Event>)

  datatype CachedSet = CachedSet(perms: set<string>, expiresAt: nat)

  datatype Redis = Redis(sets: map<UserId, CachedSet>, sentinels: map<UserId, nat>)

  /** `cached` is false for a service built with a nil cache. */
  datatype Sys = Sys(store: Store, redis: Redis, cached: bool)

  /** Which statements of a transaction the database accepts. */
  datatype TxIo = TxIo(writeOk: bool, createOk: bool, commitOk: bool)

  datatype Call =
    | Mutate(write: Write, tx: TxIo, listOk: bool, delFails: set<UserId>)
    | Authorize(user: UserId, name: string, now: nat, getOk: bool, readOk: bool, setOk: bool)
    | Expire(user: UserId)

  datatype Reply =
    | Mutated(error: Option<DbError>)
    | Answered(allowed: Result<bool, DbError>)
    | Nothing

  function EventOf(w: Write): Event
    requires IsMutator(w)
  {
    match w
    case Assign(u, r, a) => RoleAssigned(u, r, a)
    case Remove(u, r) => RoleRevoked(u, r)
    case Attach(r, p) => PermissionAttached(r, p)
  }

  /** The function a mutator passes to RunInTx: the write, then its outbox row. */
  function WriteAndRecord(st: Store, w: Write, io: TxIo): Result<Store, DbError>
    requires IsMutator(w)
  {
    if !io.writeOk then Err(Unavailable)
    else match Apply(st.db, w)
      case Err(e) => Err(e)
      case Ok(db') =>
        if io.createOk then Ok(Store(db', st.outbox + [EventOf(w)])) else Err(Unavailable)
  }

  /** RunInTx: everything the body did, or nothing. */
  function InTx(st: Store, body: Result<Store, DbError>, commitOk: bool): (Store, Option<DbError>) {
    match body
    case Err(e) => (st, Some(e))
    case Ok(st') => if commitOk then (st', None) else (st, Some(Unavailable))
  }

  predicate Hit(redis: Redis, u: UserId, now: nat) {
    u in redis.sets && now < redis.sets[u].expiresAt && redis.sets[u].perms != {}
  }

  function Filled(redis: Redis, u: UserId, perms: set<string>, now: nat): Redis {
    if perms == {} then redis.(sentinels := redis.sentinels[u := now + SENTINEL_TTL])
    else redis.(sets := redis.sets[u := CachedSet(perms, now + CacheProtocol.PERMISSION_TTL)])
  }

  function Deleted(redis: Redis, us: set<UserId>): Redis {
    Redis(redis.sets - us, redis.sentinels - us)
  }

  function ToDelete(db: Db, w: Write, listOk: bool, delFails: set<UserId>): set<UserId> {
    if w.Attach? && !listOk then {} else Invalidated(db, w) - delFails
  }

  lemma DeletedNobody(redis: Redis)
    ensures Deleted(redis, {}) == redis
  {
  }

  predicate WellFormed(c: Call) {
    c.Mutate? ==> IsMutator(c.write)
  }

  function DoMutate(s: Sys, c: Call): (Sys, Reply)
    requires c.Mutate? && IsMutator(c.write)
  {
    var (st, err) := InTx(s.store, WriteAndRecord(s.store, c.write, c.tx), c.tx.commitOk);
    if err.Some? || !s.cached then (s.(store := st), Mutated(err))
    else (s.(store := st, redis := Deleted(s.redis, ToDelete(st.db, c.write, c.listOk, c.delFails))), Mutated(None))
  }

  function DoAuthorize(s: Sys, c: Call): (Sys, Reply)
    requires c.Authorize?
  {
    if s.cached && c.getOk && Hit(s.redis, c.user, c.now) then
      (s, Answered(Ok(c.name in s.redis.sets[c.user].perms)))
    else if !c.readOk then (s, Answered(Err(Unavailable)))
    else
      var perms := Effective(s.store.db, c.user);
      (if s.cached && c.setOk then s.(redis := Filled(s.redis, c.user, perms, c.now)) else s,
       Answered(Ok(c.name in perms)))
  }

  function Do(s: Sys, c: Call): (Sys, Reply)
    requires WellFormed(c)
  {
    match c
    case Mutate(_, _, _, _) => DoMutate(s, c)
    case Authorize(_, _, _, _, _, _) => DoAuthorize(s, c)
    case Expire(u) => (s.(redis := s.redis.(sets := s.redis.sets - {u})), Nothing)
  }

  // ----- What each call does -----

  /** AssignRoleToUser returns nil if and only if every statement succeeds and the row is
      there or its user, role and assigner are. Then the row is there (an older one
      keeps its assigner), one event follows, and the user's keys are deleted if Redis
      answers; otherwise nothing at all has changed. */
  lemma AssignOutcome(s: Sys, u: UserId, r: RoleId, a: UserId, io: TxIo, listOk: bool, delFails: set<UserId>)
    ensures var db := s.store.db;
            var accepted := (u, r) in db.userRoles || (u in db.users && r in db.roles && a in db.users);
            var ok := io.writeOk && accepted && io.createOk && io.commitOk;
            var (s', reply) := Do(s, Mutate(Assign(u, r, a), io, listOk, delFails));
            && reply == Mutated(if ok then None else Some(if io.writeOk && !accepted then ForeignKey else Unavailable))
            && s'.store == (if ok then Store(db.(userRoles := map[(u, r) := a] + db.userRoles),
                                             s.store.outbox + [RoleAssigned(u, r, a)]) else s.store)
            && s'.redis == (if ok && s.cached && u !in delFails
                            then Redis(s.redis.sets - {u}, s.redis.sentinels - {u}) else s.redis)
            && s'.cached == s.cached
  {
    var db := s.store.db;
    if (u, r) in db.userRoles {
      assert map[(u, r) := a] + db.userRoles == db.userRoles;
    } else {
      assert map[(u, r) := a] + db.userRoles == db.userRoles[(u, r) := a];
    }
    assert {u} - delFails == if u in delFails then {} else {u};
    DeletedNobody(s.redis);
  }

  /** RemoveRoleFromUser returns nil if and only if every statement succeeds, whether or
      not there was a row. */
  lemma RemoveOutcome(s: Sys, u: UserId, r: RoleId, io: TxIo, listOk: bool, delFails: set<UserId>)
    ensures var db := s.store.db;
            var ok := io.writeOk && io.createOk && io.commitOk;
            var (s', reply) := Do(s, Mutate(Remove(u, r), io, listOk, delFails));
            && reply == Mutated(if ok then None else Some(Unavailable))
            && s'.store == (if ok then Store(db.(userRoles := db.userRoles - {(u, r)}),
                                             s.store.outbox + [RoleRevoked(u, r)]) else s.store)
            && s'.redis == (if ok && s.cached && u !in delFails
                            then Redis(s.redis.sets - {u}, s.redis.sentinels - {u}) else s.redis)
            && s'.cached == s.cached
  {
    assert {u} - delFails == if u in delFails then {} else {u};
    DeletedNobody(s.redis);
  }

  /** AttachPermissionToRole, likewise; if the role's users can be listed, the keys of
      those who hold it are deleted where Redis answers, and nobody else's. */
  lemma AttachOutcome(s: Sys, r: RoleId, p: PermId, io: TxIo, listOk: bool, delFails: set<UserId>)
    ensures var db := s.store.db;
            var accepted := (r, p) in db.rolePerms || (r in db.roles && p in db.perms);
            var ok := io.writeOk && accepted && io.createOk && io.commitOk;
            var (s', reply) := Do(s, Mutate(Attach(r, p), io, listOk, delFails));
            && reply == Mutated(if ok then None else Some(if io.writeOk && !accepted then ForeignKey else Unavailable))
            && s'.store == (if ok then Store(db.(rolePerms := db.rolePerms + {(r, p)}),
                                             s.store.outbox + [PermissionAttached(r, p)]) else s.store)
            && s'.cached == s.cached
            && (!(ok && s.cached && listOk) ==> s'.redis == s.redis)
    ensures var (s', reply) := Do(s, Mutate(Attach(r, p), io, listOk, delFails));
            reply == Mutated(None) && s.cached && listOk ==>
              forall x :: var kept := (x, r) !in s.store.db.userRoles || x in delFails;
                && (x in s'.redis.sets <==> x in s.redis.sets && kept)
                && (x in s'.redis.sentinels <==> x in s.redis.sentinels && kept)
                && (x in s'.redis.sets ==> s'.redis.sets[x] == s.redis.sets[x])
                && (x in s'.redis.sentinels ==> s'.redis.sentinels[x] == s.redis.sentinels[x])
  {
    var db := s.store.db;
    if (r, p) in db.rolePerms { assert db.rolePerms + {(r, p)} == db.rolePerms; }
    DeletedNobody(s.redis);
    forall x ensures x in UsersForRole(db, r) <==> (x, r) in db.userRoles {
      if (x, r) in db.userRoles { assert (x, r).0 == x; }
    }
  }

  /** A live, non-empty cached set answers by itself, whatever Postgres does. */
  lemma HitOutcome(s: Sys, u: UserId, name: string, now: nat, readOk: bool, setOk: bool)
    requires s.cached && u in s.redis.sets && now < s.redis.sets[u].expiresAt && s.redis.sets[u].perms != {}
    ensures Do(s, Authorize(u, name, now, true, readOk, setOk)) ==
            (s, Answered(Ok(name in s.redis.sets[u].perms)))
  {
  }

  /** The cache can answer the call. */
  predicate Answerable(s: Sys, c: Call) {
    && c.Authorize? && s.cached && c.getOk
    && c.user in s.redis.sets && c.now < s.redis.sets[c.user].expiresAt && s.redis.sets[c.user].perms != {}
  }

  /** Anything else is a miss: Postgres answers, by the roles held, and what it says is
      stored for ten minutes, or, if the user may do nothing, the sentinel for one. */
  lemma MissOutcome(s: Sys, c: Call)
    requires c.Authorize? && !Answerable(s, c)
    ensures var (s', reply) := Do(s, c);
            && reply == Answered(if !c.readOk then Err(Unavailable) else
                 Ok(exists r :: (c.user, r) in s.store.db.userRoles && Grants(s.store.db, r, c.name)))
            && s'.store == s.store && s'.cached == s.cached
            && (!(s.cached && c.readOk && c.setOk) ==> s'.redis == s.redis)
    ensures var (s', _) := Do(s, c);
            var names := Effective(s.store.db, c.user);
            s.cached && c.readOk && c.setOk ==>
              s'.redis == if names == {} then s.redis.(sentinels := s.redis.sentinels[c.user := c.now + 60_000])
                          else s.redis.(sets := s.redis.sets[c.user := CachedSet(names, c.now + 600_000)])
  {
    EffectiveIsJoin(s.store.db, c.user, c.name);
  }

  /** Redis may drop any user's key at any time; that answers nothing and touches no other. */
  lemma ExpiryOutcome(s: Sys, u: UserId)
    ensures var (s', reply) := Do(s, Expire(u));
            && reply == Nothing && s'.store == s.store && s'.cached == s.cached
            && s'.redis.sentinels == s.redis.sentinels && s'.redis.sets.Keys == s.redis.sets.Keys - {u}
            && forall x :: x in s'.redis.sets ==> s'.redis.sets[x] == s.redis.sets[x]
  {
  }

  // ----- The cache is invisible -----

  /** Every cached set is the user's current join. */
  ghost predicate Coherent(s: Sys) {
    forall u :: u in s.redis.sets ==> s.redis.sets[u].perms == Effective(s.store.db, u)
  }

  /** Redis lost no deletion and the users of the role could be listed. */
  predicate Undisturbed(c: Call) {
    c.Mutate? ==> c.listOk && c.delFails == {}
  }

  /** What a service without a cache does, on a database that answers its reads. */
  function Plain(st: Store, c: Call): (Store, Reply)
    requires WellFormed(c)
  {
    match c
    case Mutate(w, tx, _, _) => var (st', err) := InTx(st, WriteAndRecord(st, w, tx), tx.commitOk); (st', Mutated(err))
    case Authorize(u, name, _, _, _, _) => (st, Answered(Ok(name in Effective(st.db, u))))
    case Expire(_) => (st, Nothing)
  }

  function After(s: Sys, calls: seq<Call>): Sys
    requires forall c :: c in calls ==> WellFormed(c)
    decreases |calls|
  {
    if calls == [] then s else After(Do(s, calls[0]).0, calls[1..])
  }

  function Replies(s: Sys, calls: seq<Call>): seq<Reply>
    requires forall c :: c in calls ==> WellFormed(c)
    decreases |calls|
  {
    if calls == [] then [] else var (s', r) := Do(s, calls[0]); [r] + Replies(s', calls[1..])
  }

  function PlainReplies(st: Store, calls: seq<Call>): seq<Reply>
    requires forall c :: c in calls ==> WellFormed(c)
    decreases |calls|
  {
    if calls == [] then [] else var (st', r) := Plain(st, calls[0]); [r] + PlainReplies(st', calls[1..])
  }

  /** The same reply, except that a miss cannot be answered while the database is down. */
  predicate Agrees(s: Sys, c: Call, got: Reply, plain: Reply) {
    if c.Authorize? && !c.readOk && !Answerable(s, c) then got == Answered(Err(Unavailable)) else got == plain
  }

  lemma DeletionKeepsCoherent(s: Sys, c: Call)
    requires Coherent(s) && Consistent(s.store.db) && WellFormed(c) && c.Mutate? && Undisturbed(c)
    ensures Do(s, c).0.cached ==> Coherent(Do(s, c).0)
    ensures Consistent(Do(s, c).0.store.db)
  {
    var s' := Do(s, c).0;
    if s'.store != s.store {
      ApplyKeepsConsistent(s.store.db, c.write);
      forall u | u in s'.redis.sets && s'.cached ensures s'.redis.sets[u].perms == Effective(s'.store.db, u) {
        if Effective(s'.store.db, u) != Effective(s.store.db, u) {
          InvalidationIsEnough(s.store.db, c.write, u);
        }
      }
    }
  }

  lemma CallAgrees(s: Sys, c: Call)
    requires WellFormed(c) && Undisturbed(c)
    requires Consistent(s.store.db) && (s.cached ==> Coherent(s))
    ensures Agrees(s, c, Do(s, c).1, Plain(s.store, c).1)
    ensures var s' := Do(s, c).0;
            s'.store == Plain(s.store, c).0 && Consistent(s'.store.db) &&
            s'.cached == s.cached && (s.cached ==> Coherent(s'))
  {
    if c.Mutate? {
      if s.cached {
        DeletionKeepsCoherent(s, c);
      } else if s.store != Do(s, c).0.store {
        ApplyKeepsConsistent(s.store.db, c.write);
      }
    }
  }

  /** The cached service refines the one without a cache: over every sequence of
      completed calls, with reads and fills of Redis failing and keys vanishing at
      will, every reply is what the join alone would have given, and the only calls
      that fail to read are those the cache could not answer. */
  lemma {:induction false} CacheIsInvisible(s: Sys, calls: seq<Call>)
    requires forall c :: c in calls ==> WellFormed(c) && Undisturbed(c)
    requires Consistent(s.store.db) && (s.cached ==> Coherent(s))
    ensures |Replies(s, calls)| == |PlainReplies(s.store, calls)| == |calls|
    ensures forall i :: 0 <= i < |calls| ==>
              Agrees(After(s, calls[..i]), calls[i], Replies(s, calls)[i], PlainReplies(s.store, calls)[i])
    decreases |calls|
  {
    if calls != [] {
      CallAgrees(s, calls[0]);
      var s' := Do(s, calls[0]).0;
      CacheIsInvisible(s', calls[1..]);
      forall i | 0 <= i < |calls|
        ensures Agrees(After(s, calls[..i]), calls[i], Replies(s, calls)[i], PlainReplies(s.store, calls)[i])
      {
        if i > 0 {
          assert calls[i] == calls[1..][i - 1] && calls[..i][0] == calls[0] && calls[..i][1..] == calls[1..][..i - 1];
        }
      }
    }
  }

  // ----- The outbox is a faithful log -----

  /** What one call adds to the log. */
  function EmittedBy(c: Call, r: Reply): seq<Event>
    requires WellFormed(c)
  {
    if c.Mutate? && r == Mutated(None) then [EventOf(c.write)] else []
  }

  /** One event for every mutator that returned nil, in the order of the calls. */
  function Emitted(calls: seq<Call>, replies: seq<Reply>): seq<Event>
    requires |calls| == |replies| && forall c :: c in calls ==> WellFormed(c)
  {
    if calls == [] then []
    else
      assert WellFormed(calls[0]);
      EmittedBy(calls[0], replies[0]) + Emitted(calls[1..], replies[1..])
  }

  /** A reader of the log that knows nothing of foreign keys or transactions. */
  function ReplayOne(userRoles: map<(UserId, RoleId), UserId>, rolePerms: set<(RoleId, PermId)>, e: Event)
    : (map<(UserId, RoleId), UserId>, set<(RoleId, PermId)>)
  {
    match e
    case RoleAssigned(u, r, a) => (if (u, r) in userRoles then userRoles else userRoles[(u, r) := a], rolePerms)
    case RoleRevoked(u, r) => (userRoles - {(u, r)}, rolePerms)
    case PermissionAttached(r, p) => (userRoles, rolePerms + {(r, p)})
  }

  function Replay(userRoles: map<(UserId, RoleId), UserId>, rolePerms: set<(RoleId, PermId)>, events: seq<Event>)
    : (map<(UserId, RoleId), UserId>, set<(RoleId, PermId)>)
    decreases |events|
  {
    if events == [] then (userRoles, rolePerms)
    else var (ur, rp) := ReplayOne(userRoles, rolePerms, events[0]); Replay(ur, rp, events[1..])
  }

  lemma {:induction false} RepliesLength(s: Sys, calls: seq<Call>)
    requires forall c :: c in calls ==> WellFormed(c)
    ensures |Replies(s, calls)| == |calls|
    decreases |calls|
  {
    if calls != [] { RepliesLength(Do(s, calls[0]).0, calls[1..]); }
  }

  lemma RepliesUnfold(s: Sys, calls: seq<Call>)
    requires calls != [] && forall c :: c in calls ==> WellFormed(c)
    ensures Replies(s, calls) == [Do(s, calls[0]).1] + Replies(Do(s, calls[0]).0, calls[1..])
    ensures Replies(s, calls)[0] == Do(s, calls[0]).1
    ensures Replies(s, calls)[1..] == Replies(Do(s, calls[0]).0, calls[1..])
  {
  }

  /** The events tell how the two tables came to be what they are in `db`. */
  ghost predicate Tells(userRoles: map<(UserId, RoleId), UserId>, rolePerms: set<(RoleId, PermId)>,
                        events: seq<Event>, db: Db)
  {
    Replay(userRoles, rolePerms, events) == (db.userRoles, db.rolePerms)
  }

  /** From `s` to `s'` the outbox grew by these events, and they tell all that happened. */
  ghost predicate Logged(s: Sys, events: seq<Event>, s': Sys) {
    && s'.store.outbox == s.store.outbox + events
    && Tells(s.store.db.userRoles, s.store.db.rolePerms, events, s'.store.db)
  }

  lemma CallEmits(s: Sys, c: Call)
    requires WellFormed(c)
    ensures var (s', r) := Do(s, c);
            Logged(s, EmittedBy(c, r), s') && (EmittedBy(c, r) == [] ==> s'.store == s.store)
  {
    var (s', r) := Do(s, c);
    if c.Mutate? && r == Mutated(None) {
      assert [EventOf(c.write)][1..] == [];
      if c.write.Attach? {
        var g := (c.write.role, c.write.perm);
        if g in s.store.db.rolePerms { assert s.store.db.rolePerms == s.store.db.rolePerms + {g}; }
      }
    }
  }

  lemma {:induction false} ReplayConcat(userRoles: map<(UserId, RoleId), UserId>, rolePerms: set<(RoleId, PermId)>,
                                        a: seq<Event>, b: seq<Event>)
    ensures var (ur, rp) := Replay(userRoles, rolePerms, a); Replay(userRoles, rolePerms, a + b) == Replay(ur, rp, b)
    decreases |a|
  {
    if a == [] {
      assert a + b == b;
    } else {
      var (ur, rp) := ReplayOne(userRoles, rolePerms, a[0]);
      assert (a + b)[1..] == a[1..] + b;
      ReplayConcat(ur, rp, a[1..], b);
    }
  }

  lemma NothingLogged(s: Sys)
    ensures Logged(s, [], s)
  {
  }

  lemma LoggedOn(s: Sys, a: seq<Event>, m: Sys, b: seq<Event>, s': Sys)
    requires Logged(s, a, m) && Logged(m, b, s')
    ensures Logged(s, a + b, s')
  {
    ReplayConcat(s.store.db.userRoles, s.store.db.rolePerms, a, b);
  }

  lemma EmittedUnfold(s: Sys, calls: seq<Call>)
    requires calls != [] && forall c :: c in calls ==> WellFormed(c)
    ensures var (s1, r) := Do(s, calls[0]);
            && |Replies(s, calls)| == |calls| && |Replies(s1, calls[1..])| == |calls[1..]|
            && Emitted(calls, Replies(s, calls)) ==
                 EmittedBy(calls[0], r) + Emitted(calls[1..], Replies(s1, calls[1..]))
  {
    RepliesLength(s, calls);
    RepliesLength(Do(s, calls[0]).0, calls[1..]);
    RepliesUnfold(s, calls);
  }

  /** The write and its event commit together: over every sequence of calls, with any
      statement failing and any transaction rolled back, the outbox grows by exactly
      the events of the mutators that returned nil, and replaying those events over
      the starting tables gives the final user_roles and role_permissions. */
  lemma {:induction false} OutboxReplays(s: Sys, calls: seq<Call>)
    requires forall c :: c in calls ==> WellFormed(c)
    ensures |Replies(s, calls)| == |calls|
    ensures Logged(s, Emitted(calls, Replies(s, calls)), After(s, calls))
    decreases |calls|
  {
    if calls == [] {
      NothingLogged(s);
    } else {
      var (s1, r) := Do(s, calls[0]);
      EmittedUnfold(s, calls);
      CallEmits(s, calls[0]);
      OutboxReplays(s1, calls[1..]);
      LoggedOn(s, EmittedBy(calls[0], r), s1, Emitted(calls[1..], Replies(s1, calls[1..])), After(s, calls));
    }
  }

  // ----- The writes that neither invalidate nor emit -----

  /** The system after a commit of DeleteRole, DeletePermission or Signup's default role. */
  function Quietly(s: Sys, w: Write): Sys
    requires Apply(s.store.db, w).Ok?
  {
    s.(store := s.store.(db := Apply(s.store.db, w).value))
  }

  /** DeleteRole leaves a coherent cache coherent if and only if no cached user holds a
      permission that only this role grants. */
  lemma DeleteRoleSpares(s: Sys, r: RoleId)
    requires Coherent(s)
    ensures Coherent(Quietly(s, DropRole(r))) <==>
            forall u, name :: u in s.redis.sets ==> !OnlyThrough(s.store.db, u, r, name)
  {
    var db := s.store.db;
    if u, name :| u in s.redis.sets && OnlyThrough(db, u, r, name) {
      DeleteRoleTakesExactly(db, u, r, name);
      assert name in Effective(db, u) && name !in Effective(DeleteRole(db, r), u);
    } else {
      forall u, name | u in s.redis.sets
        ensures name in Effective(db, u) <==> name in Effective(DeleteRole(db, r), u)
      {
        DeleteRoleTakesExactly(db, u, r, name);
      }
      assert forall u :: u in s.redis.sets ==> Effective(DeleteRole(db, r), u) == Effective(db, u);
    }
  }

  /** DeletePermission does if and only if no cached user holds the permission. */
  lemma DeletePermissionSpares(s: Sys, p: PermId)
    requires Coherent(s) && Consistent(s.store.db) && p in s.store.db.perms
    ensures Coherent(Quietly(s, DropPermission(p))) <==>
            forall u :: u in s.redis.sets ==> s.store.db.perms[p] !in s.redis.sets[u].perms
  {
    forall u | u in s.redis.sets
      ensures Effective(DeletePermission(s.store.db, p), u) == Effective(s.store.db, u) - {s.store.db.perms[p]}
    {
      DeletePermissionTakesExactly(s.store.db, u, p);
    }
  }

  /** Signup's role assignment does if and only if the user is not cached or has what
      the role grants already. */
  lemma DefaultRoleSpares(s: Sys, u: UserId, r: RoleId, assigner: UserId)
    requires Coherent(s) && AssignRole(s.store.db, u, r, assigner).Ok?
    ensures Coherent(Quietly(s, Assign(u, r, assigner))) <==>
            (u in s.redis.sets ==> forall name :: Grants(s.store.db, r, name) ==> name in s.redis.sets[u].perms)
  {
    var db, db' := s.store.db, AssignRole(s.store.db, u, r, assigner).value;
    forall x, name
      ensures name in Effective(db', x) <==> name in Effective(db, x) || (x == u && Grants(db, r, name))
    {
      AssignAddsExactly(db, u, r, assigner, x, name);
    }
    forall x | x in s.redis.sets && x != u ensures Effective(db', x) == Effective(db, x) {
    }
  }

  /** So Signup always does: a user without roles is not cached, since empty sets are not. */
  lemma SignupSpares(s: Sys, u: UserId, r: RoleId)
    requires Coherent(s) && AssignRole(s.store.db, u, r, u).Ok?
    requires forall x :: x in s.redis.sets ==> s.redis.sets[x].perms != {}
    requires forall k :: k in s.store.db.userRoles ==> k.0 != u
    ensures Coherent(Quietly(s, Assign(u, r, u)))
  {
    assert Effective(s.store.db, u) == {};
    DefaultRoleSpares(s, u, r, u);
  }

  /** DeleteRole emits nothing: a log that told the whole story before tells it
      still exactly when no row of either table mentioned the role. */
  lemma DeleteRoleEscapesLog(userRoles: map<(UserId, RoleId), UserId>, rolePerms: set<(RoleId, PermId)>,
                             events: seq<Event>, db: Db, r: RoleId)
    requires Tells(userRoles, rolePerms, events, db)
    ensures Tells(userRoles, rolePerms, events, DeleteRole(db, r)) <==>
            UsersForRole(db, r) == {} && forall g :: g in db.rolePerms ==> g.0 != r
  {
    forall k | k in db.userRoles && k.1 == r ensures k.0 in UsersForRole(db, r) && k !in DeleteRole(db, r).userRoles {
    }
    if UsersForRole(db, r) == {} {
      assert DeleteRole(db, r).userRoles == db.userRoles;
    }
    if forall g :: g in db.rolePerms ==> g.0 != r {
      assert DeleteRole(db, r).rolePerms == db.rolePerms;
    } else {
      var g :| g in db.rolePerms && g.0 == r;
      assert g !in DeleteRole(db, r).rolePerms;
    }
  }

  /** Nor does DeletePermission: the log still tells all exactly when no role had it. */
  lemma DeletePermissionEscapesLog(userRoles: map<(UserId, RoleId), UserId>, rolePerms: set<(RoleId, PermId)>,
                                   events: seq<Event>, db: Db, p: PermId)
    requires Tells(userRoles, rolePerms, events, db)
    ensures Tells(userRoles, rolePerms, events, DeletePermission(db, p)) <==> forall g :: g in db.rolePerms ==> g.1 != p
  {
    if forall g :: g in db.rolePerms ==> g.1 != p {
      assert DeletePermission(db, p).rolePerms == db.rolePerms;
    } else {
      var g :| g in db.rolePerms && g.1 == p;
      assert g !in DeletePermission(db, p).rolePerms;
    }
  }

  /** Nor does Signup's role assignment: exactly when the user held the role already,
      which a new user never does. */
  lemma DefaultRoleEscapesLog(userRoles: map<(UserId, RoleId), UserId>, rolePerms: set<(RoleId, PermId)>,
                              events: seq<Event>, db: Db, u: UserId, r: RoleId, assigner: UserId)
    requires Tells(userRoles, rolePerms, events, db) && AssignRole(db, u, r, assigner).Ok?
    ensures Tells(userRoles, rolePerms, events, AssignRole(db, u, r, assigner).value) <==> (u, r) in db.userRoles
  {
    assert (u, r) in AssignRole(db, u, r, assigner).value.userRoles;
  }

  // ----- The service -----

  /** A query result or SMEMBERS reply: the elements of a set, in some order. */
  method Enumerate<T(==)>(s: set<T>) returns (xs: seq<T>)
    ensures |xs| == |s| && forall x :: x in xs <==> x in s
    ensures forall i, j :: 0 <= i < j < |xs| ==> xs[i] != xs[j]
  {
    xs := [];
    var rest := s;
    while rest != {}
      invariant rest <= s && |xs| + |rest| == |s|
      invariant forall x :: x in xs <==> x in s - rest
      invariant forall i, j :: 0 <= i < j < |xs| ==> xs[i] != xs[j]
      decreases rest
    {
      var x :| x in rest;
      assert forall i :: 0 <= i < |xs| ==> xs[i] in xs && xs[i] != x;
      assert forall y :: y in xs + [x] <==> y in xs || y == x;
      xs, rest := xs + [x], rest - {x};
    }
  }

  class Database {
    var store: Store

    constructor (st: Store)
      ensures store == st
    {
      store := st;
    }

    /** Runs `body` on a working copy; a body error or a failed commit leaves nothing behind. */
    method RunInTx(body: Store -> Result<Store, DbError>, commitOk: bool) returns (err: Option<DbError>)
      modifies this
      ensures (store, err) == InTx(old(store), body(old(store)), commitOk)
      ensures err.None? <==> body(old(store)).Ok? && commitOk
      ensures if err.None? then Ok(store) == body(old(store)) else store == old(store)
    {
      var work := body(store);
      match work
      case Err(e) => err := Some(e);
      case Ok(copy) =>
        if commitOk {
          store := copy;
          err := None;
        } else {
          err := Some(Unavailable);
        }
    }

    /** Each permission row the user reaches through a role, once. */
    method GetPermissions(u: UserId) returns (rows: seq<(PermId, string)>)
      ensures (set row | row in rows :: row.1) == Effective(store.db, u)
      ensures forall i, j :: 0 <= i < j < |rows| ==> rows[i].0 != rows[j].0
    {
      var db := store.db;
      var ids := Enumerate(set g | g in db.rolePerms && (u, g.0) in db.userRoles && g.1 in db.perms :: g.1);
      assert forall j :: 0 <= j < |ids| ==> ids[j] in ids;
      rows := [];
      for i := 0 to |ids|
        invariant |rows| == i
        invariant forall j :: 0 <= j < i ==> rows[j] == (ids[j], db.perms[ids[j]])
      {
        rows := rows + [(ids[i], db.perms[ids[i]])];
      }
      forall name ensures name in (set row | row in rows :: row.1) <==> name in Effective(db, u) {
        if name in Effective(db, u) {
          var g :| g in db.rolePerms && (u, g.0) in db.userRoles && g.1 in db.perms && db.perms[g.1] == name;
          assert g.1 in ids;
          var j :| 0 <= j < |ids| && ids[j] == g.1;
          assert rows[j] in rows && rows[j].1 == name;
        }
        if name in (set row | row in rows :: row.1) {
          var j :| 0 <= j < |rows| && rows[j].1 == name;
          assert ids[j] in ids;
        }
      }
    }

    method GetUserIDsForRole(r: RoleId) returns (ids: seq<UserId>)
      ensures forall u :: u in ids <==> u in UsersForRole(store.db, r)
    {
      ids := Enumerate(UsersForRole(store.db, r));
    }
  }

  class PermissionCache {
    var redis: Redis

    constructor ()
      ensures redis == Redis(map[], map[])
    {
      redis := Redis(map[], map[]);
    }

    /** A miss, an expired key and a Redis error look the same. */
    method Get(u: UserId, now: nat, reachable: bool) returns (perms: map<string, bool>, ok: bool)
      ensures ok == (reachable && Hit(redis, u, now))
      ensures ok ==> perms.Keys == redis.sets[u].perms && forall n :: n in perms ==> perms[n]
    {
      if !reachable || u !in redis.sets || redis.sets[u].expiresAt <= now {
        return map[], false;
      }
      var members := Enumerate(redis.sets[u].perms);
      if |members| == 0 {
        return map[], false;
      }
      perms := map[];
      for i := 0 to |members|
        invariant forall n :: n in perms <==> n in members[..i]
        invariant forall n :: n in perms ==> perms[n]
      {
        perms := perms[members[i] := true];
      }
      ok := true;
      assert members[..|members|] == members;
      assert members[0] in redis.sets[u].perms;
    }

    method Set(u: UserId, permissions: seq<string>, now: nat, reachable: bool)
      modifies this
      ensures redis == if reachable then Filled(old(redis), u, (set n | n in permissions), now) else old(redis)
    {
      if |permissions| == 0 {
        assert (set n | n in permissions) == {};
        if reachable {
          redis := redis.(sentinels := redis.sentinels[u := now + SENTINEL_TTL]);
        }
        return;
      }
      var members := new string[|permissions|];
      for i := 0 to |permissions|
        invariant members[..i] == permissions[..i] && redis == old(redis)
      {
        members[i] := permissions[i];
      }
      assert members[..] == permissions;
      var unique := set n | n in members[..];
      assert unique == (set n | n in permissions);
      assert permissions[0] in unique;
      if reachable {
        redis := redis.(sets := redis.sets[u := CachedSet(unique, now + CacheProtocol.PERMISSION_TTL)]);
      }
    }

    method Invalidate(u: UserId, reachable: bool)
      modifies this
      ensures redis == if reachable then Deleted(old(redis), {u}) else old(redis)
    {
      if reachable {
        redis := Redis(redis.sets - {u}, redis.sentinels - {u});
      }
    }
  }

  class Service {
    const database: Database
    const cache: PermissionCache?

    constructor (database: Database, cache: PermissionCache?)
      ensures this.database == database && this.cache == cache
    {
      this.database := database;
      this.cache := cache;
    }

    ghost function Abstract(): Sys
      reads this, database, cache
    {
      Sys(database.store, if cache == null then Redis(map[], map[]) else cache.redis, cache != null)
    }

    method AssignRoleToUser(u: UserId, r: RoleId, assigner: UserId, io: TxIo, delFails: set<UserId>)
      returns (err: Option<DbError>)
      modifies database, cache
      ensures (Abstract(), Mutated(err)) == Do(old(Abstract()), Mutate(Assign(u, r, assigner), io, true, delFails))
    {
      err := database.RunInTx((st: Store) => WriteAndRecord(st, Assign(u, r, assigner), io), io.commitOk);
      if err.Some? {
        return;
      }
      if cache != null {
        DeletedNobody(cache.redis);
        cache.Invalidate(u, u !in delFails);
        assert {u} - delFails == if u in delFails then {} else {u};
      }
    }

    method RemoveRoleFromUser(u: UserId, r: RoleId, io: TxIo, delFails: set<UserId>)
      returns (err: Option<DbError>)
      modifies database, cache
      ensures (Abstract(), Mutated(err)) == Do(old(Abstract()), Mutate(Remove(u, r), io, true, delFails))
    {
      err := database.RunInTx((st: Store) => WriteAndRecord(st, Remove(u, r), io), io.commitOk);
      if err.Some? {
        return;
      }
      if cache != null {
        DeletedNobody(cache.redis);
        cache.Invalidate(u, u !in delFails);
        assert {u} - delFails == if u in delFails then {} else {u};
      }
    }

    /** The fan-out: the key of everyone holding the role now. */
    method InvalidateHolders(r: RoleId, delFails: set<UserId>)
      requires cache != null
      modifies cache
      ensures cache.redis == Deleted(old(cache.redis), UsersForRole(database.store.db, r) - delFails)
    {
      DeletedNobody(cache.redis);
      var userIDs := database.GetUserIDsForRole(r);
      for i := 0 to |userIDs|
        invariant cache.redis == Deleted(old(cache.redis), (set u | u in userIDs[..i]) - delFails)
      {
        cache.Invalidate(userIDs[i], userIDs[i] !in delFails);
        assert userIDs[..i + 1] == userIDs[..i] + [userIDs[i]];
      }
      assert (set u | u in userIDs[..|userIDs|]) == UsersForRole(database.store.db, r);
    }

    method AttachPermissionToRole(r: RoleId, p: PermId, io: TxIo, listOk: bool, delFails: set<UserId>)
      returns (err: Option<DbError>)
      modifies database, cache
      ensures (Abstract(), Mutated(err)) == Do(old(Abstract()), Mutate(Attach(r, p), io, listOk, delFails))
    {
      err := database.RunInTx((st: Store) => WriteAndRecord(st, Attach(r, p), io), io.commitOk);
      if err.Some? {
        return;
      }
      if cache != null {
        DeletedNobody(cache.redis);
        if listOk {
          InvalidateHolders(r, delFails);
        }
      }
    }

    method Authorize(u: UserId, name: string, now: nat, getOk: bool, readOk: bool, setOk: bool)
      returns (allowed: Result<bool, DbError>)
      modifies cache
      ensures (Abstract(), Answered(allowed)) ==
              Do(old(Abstract()), Call.Authorize(u, name, now, getOk, readOk, setOk))
    {
      if cache != null {
        var cachedPerms, ok := cache.Get(u, now, getOk);
        if ok {
          return Ok(name in cachedPerms && cachedPerms[name]);
        }
      }
      if !readOk {
        return Err(Unavailable);
      }
      var perms := database.GetPermissions(u);
      var names := new string[|perms|];
      var found := false;
      for i := 0 to |perms|
        invariant forall j :: 0 <= j < i ==> names[j] == perms[j].1
        invariant found <==> exists j :: 0 <= j < i && perms[j].1 == name
        invariant Abstract() == old(Abstract())
      {
        names[i] := perms[i].1;
        if perms[i].1 == name {
          found := true;
        }
      }
      assert (set n | n in names[..]) == Effective(database.store.db, u) by {
        assert forall j :: 0 <= j < |perms| ==> names[..][j] == perms[j].1 && perms[j] in perms;
      }
      assert found <==> name in Effective(database.store.db, u) by {
        assert forall j :: 0 <= j < |perms| ==> perms[j] in perms;
      }
      if cache != null {
        cache.Set(u, names[..], now, setOk);
      }
      return Ok(found);
    }
  }
}

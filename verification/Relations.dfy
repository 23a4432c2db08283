/** The relational database behind the RBAC service: the five tables of the
    schema, the writes the repositories issue against them (with the schema's
    foreign keys, unique names and cascades), and the three-table join that
    decides what a user may do. */
module Relations {
  import opened Wrappers

  type UserId = nat
  type RoleId = nat
  type PermId = nat

  datatype DbError = ForeignKey | Unique | Unavailable

  /** `userRoles` maps a (user, role) row to the user recorded in `assigned_by`. */
  datatype Db = Db(
    users: set<UserId>,
    roles: map<RoleId, string>,
    perms: map<PermId, string>,
    userRoles: map<(UserId, RoleId), UserId>,
    rolePerms: set<(RoleId, PermId)>)

  /** The foreign keys of the two link tables and the unique names. */
  ghost predicate Consistent(db: Db) {
    && (forall k :: k in db.userRoles ==> k.0 in db.users && k.1 in db.roles && db.userRoles[k] in db.users)
    && (forall g :: g in db.rolePerms ==> g.0 in db.roles && g.1 in db.perms)
    && (forall r, q :: r in db.roles && q in db.roles && db.roles[r] == db.roles[q] ==> r == q)
    && (forall p, q :: p in db.perms && q in db.perms && db.perms[p] == db.perms[q] ==> p == q)
  }

  /** GetPermissions: permissions JOIN role_permissions JOIN user_roles, as names. */
  function Effective(db: Db, u: UserId): set<string> {
    set g | g in db.rolePerms && (u, g.0) in db.userRoles && g.1 in db.perms :: db.perms[g.1]
  }

  /** Role `r` grants the permission called `name`. */
  ghost predicate Grants(db: Db, r: RoleId, name: string) {
    exists p :: (r, p) in db.rolePerms && p in db.perms && db.perms[p] == name
  }

  /** The user has the permission through role `r` and through no other. */
  ghost predicate OnlyThrough(db: Db, u: UserId, r: RoleId, name: string) {
    && (u, r) in db.userRoles && Grants(db, r, name)
    && !exists r' :: r' != r && (u, r') in db.userRoles && Grants(db, r', name)
  }

  /** GetUserIDsForRole. */
  function UsersForRole(db: Db, r: RoleId): set<UserId> {
    set k | k in db.userRoles && k.1 == r :: k.0
  }

  /** One committed change to the tables. */
  datatype Write =
    | Assign(user: UserId, role: RoleId, assigner: UserId)
    | Remove(user: UserId, role: RoleId)
    | Attach(role: RoleId, perm: PermId)
    | DropRole(role: RoleId)
    | DropPermission(perm: PermId)
    | NewUser(user: UserId)
    | NewRole(role: RoleId, name: string)
    | NewPermission(perm: PermId, name: string)

  /** The writes of the three service calls that invalidate the cache. */
  predicate IsMutator(w: Write) {
    w.Assign? || w.Remove? || w.Attach?
  }

  /** The row is skipped when it exists already, before any foreign key is looked at. */
  function AssignRole(db: Db, u: UserId, r: RoleId, assigner: UserId): Result<Db, DbError> {
    if (u, r) in db.userRoles then Ok(db)
    else if u in db.users && r in db.roles && assigner in db.users then
      Ok(db.(userRoles := db.userRoles[(u, r) := assigner]))
    else Err(ForeignKey)
  }

  function RemoveRole(db: Db, u: UserId, r: RoleId): Db {
    db.(userRoles := db.userRoles - {(u, r)})
  }

  function AttachPermission(db: Db, r: RoleId, p: PermId): Result<Db, DbError> {
    if (r, p) in db.rolePerms then Ok(db)
    else if r in db.roles && p in db.perms then Ok(db.(rolePerms := db.rolePerms + {(r, p)}))
    else Err(ForeignKey)
  }

  /** ON DELETE CASCADE on user_roles.role_id and role_permissions.role_id. */
  function DeleteRole(db: Db, r: RoleId): Db {
    db.(roles := db.roles - {r},
        userRoles := map k | k in db.userRoles && k.1 != r :: db.userRoles[k],
        rolePerms := set g | g in db.rolePerms && g.0 != r)
  }

  /** ON DELETE CASCADE on role_permissions.permission_id. */
  function DeletePermission(db: Db, p: PermId): Db {
    db.(perms := db.perms - {p}, rolePerms := set g | g in db.rolePerms && g.1 != p)
  }

  function Apply(db: Db, w: Write): Result<Db, DbError> {
    match w
    case Assign(u, r, a) => AssignRole(db, u, r, a)
    case Remove(u, r) => Ok(RemoveRole(db, u, r))
    case Attach(r, p) => AttachPermission(db, r, p)
    case DropRole(r) => Ok(DeleteRole(db, r))
    case DropPermission(p) => Ok(DeletePermission(db, p))
    case NewUser(u) => if u in db.users then Err(Unique) else Ok(db.(users := db.users + {u}))
    case NewRole(r, name) =>
      if r in db.roles || name in db.roles.Values then Err(Unique) else Ok(db.(roles := db.roles[r := name]))
    case NewPermission(p, name) =>
      if p in db.perms || name in db.perms.Values then Err(Unique) else Ok(db.(perms := db.perms[p := name]))
  }

  /** The users whose cached set the service deletes after committing `w`, read
      from the tables `db` at the time of that read. */
  function Invalidated(db: Db, w: Write): set<UserId> {
    match w
    case Assign(u, _, _) => {u}
    case Remove(u, _) => {u}
    case Attach(r, _) => UsersForRole(db, r)
    case _ => {}
  }

  lemma EffectiveIsJoin(db: Db, u: UserId, name: string)
    ensures name in Effective(db, u) <==> exists r :: (u, r) in db.userRoles && Grants(db, r, name)
  {
  }

  /** Every write keeps the foreign keys and the unique names. */
  lemma ApplyKeepsConsistent(db: Db, w: Write)
    requires Consistent(db) && Apply(db, w).Ok?
    ensures Consistent(Apply(db, w).value)
  {
  }

  /** The insert a write asks for, if nothing were checked: a row that exists wins over
      one put into a link table. */
  function Unchecked(db: Db, w: Write): Db {
    match w
    case Assign(u, r, a) => db.(userRoles := map[(u, r) := a] + db.userRoles)
    case Attach(r, p) => db.(rolePerms := db.rolePerms + {(r, p)})
    case NewUser(u) => db.(users := db.users + {u})
    case NewRole(r, name) => db.(roles := db.roles[r := name])
    case NewPermission(p, name) => db.(perms := db.perms[p := name])
    case _ => db
  }

  /** The primary key of the row the write inserts is taken, and that is a conflict. */
  predicate Taken(db: Db, w: Write) {
    match w
    case NewUser(u) => u in db.users
    case NewRole(r, _) => r in db.roles
    case NewPermission(p, _) => p in db.perms
    case _ => false
  }

  lemma AssignAccepted(db: Db, w: Write)
    requires Consistent(db) && w.Assign?
    ensures Apply(db, w).Ok? <==> Consistent(Unchecked(db, w))
    ensures Apply(db, w).Ok? ==> Apply(db, w).value == Unchecked(db, w)
  {
    var k, after := (w.user, w.role), Unchecked(db, w);
    assert k in after.userRoles && after.userRoles[k] == if k in db.userRoles then db.userRoles[k] else w.assigner;
    if k in db.userRoles {
      assert after.userRoles == db.userRoles;
    } else {
      assert after.userRoles == db.userRoles[k := w.assigner];
    }
  }

  lemma AttachAccepted(db: Db, w: Write)
    requires Consistent(db) && w.Attach?
    ensures Apply(db, w).Ok? <==> Consistent(Unchecked(db, w))
    ensures Apply(db, w).Ok? ==> Apply(db, w).value == Unchecked(db, w)
  {
    assert (w.role, w.perm) in Unchecked(db, w).rolePerms;
    if (w.role, w.perm) in db.rolePerms { assert Unchecked(db, w).rolePerms == db.rolePerms; }
  }

  lemma NameAccepted(db: Db, w: Write)
    requires Consistent(db) && (w.NewRole? || w.NewPermission?) && !Taken(db, w)
    ensures Apply(db, w).Ok? <==> Consistent(Unchecked(db, w))
  {
    var after := Unchecked(db, w);
    if w.NewRole? && w.name in db.roles.Values {
      var q :| q in db.roles && db.roles[q] == w.name;
      assert after.roles[w.role] == after.roles[q];
    } else if w.NewPermission? && w.name in db.perms.Values {
      var q :| q in db.perms && db.perms[q] == w.name;
      assert after.perms[w.perm] == after.perms[q];
    }
  }

  /** An insert is accepted if and only if its key is free and the row would keep every
      constraint, and then it is that insert; a refusal names the constraint. */
  lemma AcceptsExactly(db: Db, w: Write)
    requires Consistent(db) && !w.Remove? && !w.DropRole? && !w.DropPermission?
    ensures Apply(db, w).Ok? <==> !Taken(db, w) && Consistent(Unchecked(db, w))
    ensures Apply(db, w).Ok? ==> Apply(db, w).value == Unchecked(db, w)
    ensures Apply(db, w).Err? ==> Apply(db, w).error == if IsMutator(w) then ForeignKey else Unique
  {
    if w.Assign? {
      AssignAccepted(db, w);
    } else if w.Attach? {
      AttachAccepted(db, w);
    } else if !Taken(db, w) && !w.NewUser? {
      NameAccepted(db, w);
    }
  }

  /** RemoveRole takes the one row and nothing else, and succeeds without it too. */
  lemma RemovesExactly(db: Db, u: UserId, r: RoleId)
    ensures var db' := RemoveRole(db, u, r);
            && (db'.users, db'.roles, db'.perms, db'.rolePerms) == (db.users, db.roles, db.perms, db.rolePerms)
            && forall k :: k in db'.userRoles <==> k in db.userRoles && k != (u, r)
    ensures forall k :: k in RemoveRole(db, u, r).userRoles ==> RemoveRole(db, u, r).userRoles[k] == db.userRoles[k]
    ensures Apply(db, Remove(u, r)) == Ok(RemoveRole(db, u, r))
  {
  }

  /** A deleted role is gone with every row that mentions it and nothing else, its name is
      free again, and it can be neither assigned nor given permissions. */
  lemma RoleIsDeleted(db: Db, r: RoleId)
    requires Consistent(db)
    ensures var db' := DeleteRole(db, r);
            && db'.roles.Keys == db.roles.Keys - {r} && (forall q :: q in db'.roles ==> db'.roles[q] == db.roles[q])
            && (db'.users, db'.perms) == (db.users, db.perms)
            && (forall k :: k in db'.userRoles <==> k in db.userRoles && k.1 != r)
            && (forall g :: g in db'.rolePerms <==> g in db.rolePerms && g.0 != r)
    ensures forall u, a :: Apply(DeleteRole(db, r), Assign(u, r, a)) == Err(ForeignKey)
    ensures forall p :: Apply(DeleteRole(db, r), Attach(r, p)) == Err(ForeignKey)
    ensures r in db.roles ==> Apply(DeleteRole(db, r), NewRole(r, db.roles[r])).Ok?
  {
  }

  /** So is a deleted permission. */
  lemma PermissionIsDeleted(db: Db, p: PermId)
    requires Consistent(db)
    ensures var db' := DeletePermission(db, p);
            && db'.perms.Keys == db.perms.Keys - {p} && (forall q :: q in db'.perms ==> db'.perms[q] == db.perms[q])
            && (db'.users, db'.roles, db'.userRoles) == (db.users, db.roles, db.userRoles)
            && (forall g :: g in db'.rolePerms <==> g in db.rolePerms && g.1 != p)
    ensures forall r :: Apply(DeletePermission(db, p), Attach(r, p)) == Err(ForeignKey)
    ensures p in db.perms ==> Apply(DeletePermission(db, p), NewPermission(p, db.perms[p])).Ok?
  {
  }

  /** Invalidation misses nobody: whoever sees a different set after Assign, Remove
      or Attach is among the users the service then deletes from the cache. Creating
      users, roles or permissions changes nobody's set. */
  lemma InvalidationIsEnough(db: Db, w: Write, u: UserId)
    requires Consistent(db) && Apply(db, w).Ok?
    requires !w.DropRole? && !w.DropPermission?
    requires Effective(Apply(db, w).value, u) != Effective(db, u)
    ensures u in Invalidated(Apply(db, w).value, w)
  {
  }

  /** Removing a role takes away exactly what no other held role grants. */
  lemma RemoveTakesExactly(db: Db, u: UserId, r: RoleId, name: string)
    ensures name in Effective(db, u) - Effective(RemoveRole(db, u, r), u) <==> OnlyThrough(db, u, r, name)
  {
  }

  /** So does deleting the role, for each of its holders. */
  lemma DeleteRoleTakesExactly(db: Db, u: UserId, r: RoleId, name: string)
    ensures name in Effective(db, u) - Effective(DeleteRole(db, r), u) <==> OnlyThrough(db, u, r, name)
    ensures Effective(DeleteRole(db, r), u) <= Effective(db, u)
  {
  }

  /** Deleting a permission takes away its name, and only its name, from whoever has it. */
  lemma DeletePermissionTakesExactly(db: Db, u: UserId, p: PermId)
    requires Consistent(db) && p in db.perms
    ensures Effective(DeletePermission(db, p), u) == Effective(db, u) - {db.perms[p]}
  {
  }

  /** Assigning a role gives the user what the role grants, and changes nobody else's set. */
  lemma AssignAddsExactly(db: Db, u: UserId, r: RoleId, assigner: UserId, x: UserId, name: string)
    requires AssignRole(db, u, r, assigner).Ok?
    ensures name in Effective(AssignRole(db, u, r, assigner).value, x) <==>
            name in Effective(db, x) || (x == u && Grants(db, r, name))
  {
  }

  /** Attaching a permission adds its name, and only its name, for exactly the
      holders of the role that had no other role granting it. */
  lemma AttachAddsExactly(db: Db, r: RoleId, p: PermId, u: UserId)
    requires Consistent(db) && AttachPermission(db, r, p).Ok?
    ensures p in db.perms
    ensures Effective(AttachPermission(db, r, p).value, u) ==
            Effective(db, u) + (if u in UsersForRole(db, r) then {db.perms[p]} else {})
  {
  }
}

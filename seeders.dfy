/** The permission catalogue seeder: one `firstOrCreate` per catalogue name,
    so a name already in the table keeps its row and a missing one gets the
    next id. */
module PermissionSeeder {
  import opened Domain
  import opened Schema

  /** The catalogue, in the order the seeder lists it. */
  const CATALOGUE: seq<string> := [
    USERS_CREATE, USERS_VIEW_ANY, USERS_UPDATE, USERS_DELETE,
    TEAMS_CREATE, TEAMS_UPDATE, TEAMS_MANAGE_ROSTER, TEAMS_VIEW_ANY,
    PROJECTS_CREATE, PROJECTS_UPDATE, PROJECTS_DELETE, PROJECTS_VIEW_ALL,
    PROJECTS_ASSIGN_TEAMS, PROJECTS_ASSIGN_ADVISORS,
    REVIEWS_CREATE, REVIEWS_UPDATE_OWN, REVIEWS_DELETE_OWN, REVIEWS_DELETE_ANY, REVIEWS_VIEW_NAMES]

  /** Nineteen names, no two alike, each of the form `resource.action`. */
  lemma CatalogueIsWellFormed()
    ensures |CATALOGUE| == 19
    ensures forall i, j :: 0 <= i < j < |CATALOGUE| ==> CATALOGUE[i] != CATALOGUE[j]
    ensures forall i :: 0 <= i < |CATALOGUE| ==> '.' in CATALOGUE[i]
  {
  }

  /** `Permission::firstOrCreate(['permission_name' => name])`. */
  method FirstOrCreate(db: Database, name: string) returns (id: PermissionId)
    requires db.Valid()
    modifies db`permissions, db`nextPermissionId
    ensures db.Valid()
    ensures id in db.permissions && db.permissions[id] == name
    ensures name in Names(old(db.permissions)) ==>
              db.permissions == old(db.permissions) && db.nextPermissionId == old(db.nextPermissionId)
    ensures name !in Names(old(db.permissions)) ==>
              id == old(db.nextPermissionId) && id !in old(db.permissions)
              && db.permissions == old(db.permissions)[id := name]
              && db.nextPermissionId == id + 1
  {
    if exists p :: p in db.permissions && db.permissions[p] == name {
      id :| id in db.permissions && db.permissions[id] == name;
    } else {
      id := db.nextPermissionId;
      db.permissions := db.permissions[id := name];
      db.nextPermissionId := id + 1;
    }
  }

  lemma NewKeyNames(m: map<PermissionId, string>, k: PermissionId, v: string)
    requires k !in m
    ensures Names(m[k := v]) == Names(m) + {v}
  {
    var m' := m[k := v];
    forall x | x in Names(m) ensures x in Names(m') {
      var j :| j in m && m[j] == x;
      assert m'[j] == x;
    }
    assert m'[k] == v;
  }

  /** The `foreach` over a list of names: every name ends up in the table,
      rows already present keep their id and name, and when every name is
      present already nothing changes. */
  method CreateAll(db: Database, names: seq<string>)
    requires db.Valid()
    modifies db`permissions, db`nextPermissionId
    ensures db.Valid()
    ensures Names(db.permissions) == Names(old(db.permissions)) + set n | n in names
    ensures forall p :: p in old(db.permissions) ==> p in db.permissions && db.permissions[p] == old(db.permissions[p])
    ensures (forall n :: n in names ==> n in Names(old(db.permissions))) ==> db.permissions == old(db.permissions)
  {
    for i := 0 to |names|
      invariant db.Valid()
      invariant Names(db.permissions) == Names(old(db.permissions)) + set n | n in names[..i]
      invariant forall p :: p in old(db.permissions) ==> p in db.permissions && db.permissions[p] == old(db.permissions[p])
      invariant (forall n :: n in names ==> n in Names(old(db.permissions))) ==> db.permissions == old(db.permissions)
    {
      var before := db.permissions;
      var id := FirstOrCreate(db, names[i]);
      assert names[..i + 1] == names[..i] + [names[i]];
      if names[i] !in Names(before) {
        NewKeyNames(before, id, names[i]);
      }
    }
    assert names[..|names|] == names;
  }

  /** `run`: the catalogue names all end up in the table (once each, since
      names are unique), rows already present keep their id and name, and a
      run over a table that holds the catalogue changes nothing, so a second
      run leaves the table as the first one left it. */
  method Run(db: Database)
    requires db.Valid()
    modifies db`permissions, db`nextPermissionId
    ensures db.Valid()
    ensures Names(db.permissions) == Names(old(db.permissions)) + set n | n in CATALOGUE
    ensures forall p :: p in old(db.permissions) ==> p in db.permissions && db.permissions[p] == old(db.permissions[p])
    ensures (forall n :: n in CATALOGUE ==> n in Names(old(db.permissions))) ==> db.permissions == old(db.permissions)
  {
    CreateAll(db, CATALOGUE);
  }
}

/** The role/permission matrix: Executive is synced to every permission,
    Manager and Associate to the four standard ones. The three roles are
    looked up first; a missing role is a null whose use aborts the run at
    the first sync that touches it, after the syncs before it. */
module RolePermissionSeeder {
  import opened Domain
  import opened Schema
  import PermissionSeeder

  /** The permissions of the two non-executive roles. */
  const STANDARD: seq<string> := [TEAMS_VIEW_ANY, REVIEWS_CREATE, REVIEWS_UPDATE_OWN, REVIEWS_DELETE_OWN]

  datatype SeedError = MissingRole(name: string)

  /** `Permission::whereIn('permission_name', STANDARD)`. */
  function StandardIds(perms: map<PermissionId, string>): (r: set<PermissionId>)
    ensures forall p :: p in r <==> p in perms && perms[p] in STANDARD
  {
    set p | p in perms && perms[p] in STANDARD
  }

  /** The pivot after the run, given what the three lookups found. */
  function Matrix(rp: set<(RoleId, PermissionId)>, perms: map<PermissionId, string>,
                  exec: Option<RoleId>, manager: Option<RoleId>, associate: Option<RoleId>): set<(RoleId, PermissionId)>
  {
    if exec.None? then rp
    else
      var afterExec := SyncPivot(rp, exec.value, perms.Keys);
      if manager.None? then afterExec
      else
        var afterManager := SyncPivot(afterExec, manager.value, StandardIds(perms));
        if associate.None? then afterManager
        else SyncPivot(afterManager, associate.value, StandardIds(perms))
  }

  /** The role whose name is `name`, as `Role::where(...)->first()` finds it. */
  method FindRole(db: Database, name: string) returns (r: Option<RoleId>)
    requires db.Valid()
    ensures r == RoleByName(db.roles, name)
  {
    if exists q :: q in db.roles && db.roles[q] == name {
      var q :| q in db.roles && db.roles[q] == name;
      RoleByNameIs(db.roles, name, q);
      r := Some(q);
    } else {
      r := None;
    }
  }

  /** `run`. The run succeeds exactly when all three roles exist; whatever
      the lookups found, the pivot ends as `Matrix` says. */
  method Run(db: Database) returns (r: Result<(), SeedError>)
    requires db.Valid()
    modifies db`rolePermissions
    ensures db.Valid()
    ensures db.rolePermissions == Matrix(old(db.rolePermissions), db.permissions,
              RoleByName(db.roles, EXECUTIVE), RoleByName(db.roles, MANAGER), RoleByName(db.roles, ASSOCIATE))
    ensures r.Success? <==> RoleByName(db.roles, EXECUTIVE).Some? && RoleByName(db.roles, MANAGER).Some?
                            && RoleByName(db.roles, ASSOCIATE).Some?
    ensures r.Failure? ==>
              r.error == MissingRole(if RoleByName(db.roles, EXECUTIVE).None? then EXECUTIVE
                                     else if RoleByName(db.roles, MANAGER).None? then MANAGER
                                     else ASSOCIATE)
  {
    var exec := FindRole(db, EXECUTIVE);
    var manager := FindRole(db, MANAGER);
    var associate := FindRole(db, ASSOCIATE);
    if exec.None? {
      return Failure(MissingRole(EXECUTIVE));
    }
    db.rolePermissions := SyncPivot(db.rolePermissions, exec.value, db.permissions.Keys);
    var standard := StandardIds(db.permissions);
    if manager.None? {
      return Failure(MissingRole(MANAGER));
    }
    db.rolePermissions := SyncPivot(db.rolePermissions, manager.value, standard);
    if associate.None? {
      return Failure(MissingRole(ASSOCIATE));
    }
    db.rolePermissions := SyncPivot(db.rolePermissions, associate.value, standard);
    r := Success(());
  }

  /** With the three roles present (and so distinct), Executive holds exactly
      every permission, Manager and Associate exactly the standard ones, the
      rows each of them held before are gone, and no other role's rows move. */
  lemma MatrixMeans(rp: set<(RoleId, PermissionId)>, perms: map<PermissionId, string>, e: RoleId, m: RoleId, a: RoleId)
    requires e != m && e != a && m != a
    ensures var rp' := Matrix(rp, perms, Some(e), Some(m), Some(a));
            && (forall p :: (e, p) in rp' <==> p in perms)
            && (forall p :: (m, p) in rp' <==> p in perms && perms[p] in STANDARD)
            && (forall p :: (a, p) in rp' <==> p in perms && perms[p] in STANDARD)
            && (forall x :: x in rp' && x.0 != e && x.0 != m && x.0 != a <==> x in rp && x.0 != e && x.0 != m && x.0 != a)
  {
  }

  /** A second run over the same tables gives the same matrix. */
  lemma MatrixIdempotent(rp: set<(RoleId, PermissionId)>, perms: map<PermissionId, string>, e: RoleId, m: RoleId, a: RoleId)
    requires e != m && e != a && m != a
    ensures var once := Matrix(rp, perms, Some(e), Some(m), Some(a));
            Matrix(once, perms, Some(e), Some(m), Some(a)) == once
  {
    var once := Matrix(rp, perms, Some(e), Some(m), Some(a));
    var twice := Matrix(once, perms, Some(e), Some(m), Some(a));
    MatrixMeans(rp, perms, e, m, a);
    MatrixMeans(once, perms, e, m, a);
    forall x | x in twice ensures x in once {
      if x.0 == e { assert (e, x.1) in twice; }
      else if x.0 == m { assert (m, x.1) in twice; }
      else if x.0 == a { assert (a, x.1) in twice; }
    }
    forall x | x in once ensures x in twice {
      if x.0 == e { assert (e, x.1) in once; }
      else if x.0 == m { assert (m, x.1) in once; }
      else if x.0 == a { assert (a, x.1) in once; }
    }
  }

  /** After the catalogue is seeded and then the matrix, Executive grants
      every catalogue name, while Manager and Associate grant exactly the
      four standard names. */
  lemma SeededGrants(g: Graph, e: RoleId, m: RoleId, a: RoleId, name: string)
    requires e != m && e != a && m != a
    requires forall n :: n in PermissionSeeder.CATALOGUE ==> n in Names(g.permissions)
    ensures var g' := g.(rolePermissions := Matrix(g.rolePermissions, g.permissions, Some(e), Some(m), Some(a)));
            && (name in PermissionSeeder.CATALOGUE ==> RoleGrantsInGraph(g', e, name))
            && (RoleGrantsInGraph(g', m, name) <==> name in STANDARD)
            && (RoleGrantsInGraph(g', a, name) <==> name in STANDARD)
  {
    var g' := g.(rolePermissions := Matrix(g.rolePermissions, g.permissions, Some(e), Some(m), Some(a)));
    MatrixMeans(g.rolePermissions, g.permissions, e, m, a);
    if name in PermissionSeeder.CATALOGUE {
      var p :| p in g.permissions && g.permissions[p] == name;
      assert (e, p) in g'.rolePermissions;
    }
    if name in STANDARD {
      assert name in PermissionSeeder.CATALOGUE;
      var p :| p in g.permissions && g.permissions[p] == name;
      assert (m, p) in g'.rolePermissions && (a, p) in g'.rolePermissions;
    }
  }

  /** Neither non-executive role can see every project, see reviewer names
      or delete other people's reviews. */
  lemma StandardRolesLackPrivileges(g: Graph, e: RoleId, m: RoleId, a: RoleId)
    requires e != m && e != a && m != a
    ensures var g' := g.(rolePermissions := Matrix(g.rolePermissions, g.permissions, Some(e), Some(m), Some(a)));
            forall r :: r == m || r == a ==>
              !RoleGrantsInGraph(g', r, PROJECTS_VIEW_ALL) && !RoleGrantsInGraph(g', r, REVIEWS_VIEW_NAMES)
              && !RoleGrantsInGraph(g', r, REVIEWS_DELETE_ANY)
  {
    var g' := g.(rolePermissions := Matrix(g.rolePermissions, g.permissions, Some(e), Some(m), Some(a)));
    MatrixMeans(g.rolePermissions, g.permissions, e, m, a);
    assert PROJECTS_VIEW_ALL !in STANDARD && REVIEWS_VIEW_NAMES !in STANDARD && REVIEWS_DELETE_ANY !in STANDARD;
  }
}

/** The role and permission checks of the HasRoles trait.

    A User model instance either carries its `roles` relation already loaded
    (each loaded role may in turn carry its `permissions` relation or not), or
    it does not, in which case every check queries the stored graph. Each
    check has one branch per loading state; the lemmas at the end prove that,
    whenever the loaded collections reflect the stored graph, every branch
    computes the same answer: the reference definitions RoleNames and
    EffectivePermissions of module Domain. */
module HasRoles {
  import opened Domain

  datatype LoadedPermission = LoadedPermission(permissionId: PermissionId, permissionName: string)

  /** A Role model in memory; `permissions` is None when that relation is not loaded. */
  datatype LoadedRole = LoadedRole(roleId: RoleId, roleName: string, permissions: Option<seq<LoadedPermission>>)

  /** A User model in memory; `roles` is None when that relation is not loaded. */
  datatype User = User(userId: UserId, roles: Option<seq<LoadedRole>>)

  /** The argument of hasAnyRole: a single role name or an array of them. */
  datatype RoleList = OneRole(name: string) | RoleArray(names: seq<string>)

  /** hasAnyRole wraps a single name into a one-element array first. */
  function RoleListNames(roles: RoleList): seq<string> {
    match roles
    case OneRole(n) => [n]
    case RoleArray(ns) => ns
  }

  // ------------------------------------------------------------------
  // When an in-memory collection reflects the stored graph

  ghost predicate PermissionsMatch(g: Graph, r: RoleId, ps: seq<LoadedPermission>) {
    && (forall i :: 0 <= i < |ps| ==>
          ps[i].permissionId in g.permissions
          && g.permissions[ps[i].permissionId] == ps[i].permissionName
          && (r, ps[i].permissionId) in g.rolePermissions)
    && (forall p :: p in g.permissions && (r, p) in g.rolePermissions ==>
          exists i :: 0 <= i < |ps| && ps[i].permissionId == p)
  }

  ghost predicate RoleMatches(g: Graph, u: UserId, lr: LoadedRole) {
    && lr.roleId in g.roles
    && g.roles[lr.roleId] == lr.roleName
    && (u, lr.roleId) in g.userRoles
    && (lr.permissions.Some? ==> PermissionsMatch(g, lr.roleId, lr.permissions.value))
  }

  ghost predicate RolesMatch(g: Graph, u: UserId, rs: seq<LoadedRole>) {
    && (forall i :: 0 <= i < |rs| ==> RoleMatches(g, u, rs[i]))
    && (forall r :: r in g.roles && (u, r) in g.userRoles ==>
          exists i :: 0 <= i < |rs| && rs[i].roleId == r)
  }

  /** The loaded collections of `user`, if any, are exactly what is stored. */
  ghost predicate Consistent(g: Graph, user: User) {
    user.roles.Some? ==> RolesMatch(g, user.userId, user.roles.value)
  }

  // ------------------------------------------------------------------
  // hasRole

  /** Loaded: `roles->contains('role_name', name)`; otherwise the query
      `roles()->where('role_name', name)->exists()`. */
  predicate HasRole(g: Graph, user: User, roleName: string) {
    match user.roles
    case Some(rs) => exists i :: 0 <= i < |rs| && rs[i].roleName == roleName
    case None => exists r :: r in g.roles && (user.userId, r) in g.userRoles && g.roles[r] == roleName
  }

  // ------------------------------------------------------------------
  // hasAnyRole

  /** Loaded: `roles->whereIn('role_name', names)->isNotEmpty()`; otherwise
      `roles()->whereIn('role_name', names)->exists()`. */
  predicate HasAnyRole(g: Graph, user: User, roles: RoleList) {
    var names := RoleListNames(roles);
    match user.roles
    case Some(rs) => exists i :: 0 <= i < |rs| && rs[i].roleName in names
    case None => exists r :: r in g.roles && (user.userId, r) in g.userRoles && g.roles[r] in names
  }

  // ------------------------------------------------------------------
  // hasPermission

  /** One loaded role's answer: its loaded `permissions` collection when it
      has one, else the query `role->permissions()->where(...)->exists()`. */
  predicate RoleGrants(g: Graph, lr: LoadedRole, name: string) {
    match lr.permissions
    case Some(ps) => exists i :: 0 <= i < |ps| && ps[i].permissionName == name
    case None => RoleGrantsInGraph(g, lr.roleId, name)
  }

  /** The `foreach` over the loaded roles, returning true at the first role
      that grants the permission and false after the last one. */
  predicate SomeLoadedRoleGrants(g: Graph, rs: seq<LoadedRole>, name: string)
    decreases |rs|
  {
    if rs == [] then false
    else if RoleGrants(g, rs[0], name) then true
    else SomeLoadedRoleGrants(g, rs[1..], name)
  }

  /** Loaded roles: the loop above; otherwise the single query
      `roles()->whereHas('permissions', name)->exists()`. */
  predicate HasPermission(g: Graph, user: User, name: string) {
    match user.roles
    case Some(rs) => SomeLoadedRoleGrants(g, rs, name)
    case None => exists r :: r in g.roles && (user.userId, r) in g.userRoles && RoleGrantsInGraph(g, r, name)
  }

  // ------------------------------------------------------------------
  // The branches agree

  lemma HasRoleAgrees(g: Graph, user: User, roleName: string)
    requires Consistent(g, user)
    ensures HasRole(g, user, roleName) <==> roleName in RoleNames(g, user.userId)
  {
    var u := user.userId;
    if user.roles.Some? {
      var rs := user.roles.value;
      if HasRole(g, user, roleName) {
        var i :| 0 <= i < |rs| && rs[i].roleName == roleName;
        assert RoleMatches(g, u, rs[i]);
      }
      if roleName in RoleNames(g, u) {
        var r :| r in g.roles && (u, r) in g.userRoles && g.roles[r] == roleName;
        var i :| 0 <= i < |rs| && rs[i].roleId == r;
        assert RoleMatches(g, u, rs[i]);
      }
    }
  }

  lemma HasAnyRoleOfOneName(g: Graph, user: User, roleName: string)
    ensures HasAnyRole(g, user, OneRole(roleName)) == HasAnyRole(g, user, RoleArray([roleName]))
    ensures HasAnyRole(g, user, OneRole(roleName)) == HasRole(g, user, roleName)
  {
  }

  lemma HasAnyRoleAgrees(g: Graph, user: User, roles: RoleList)
    requires Consistent(g, user)
    ensures HasAnyRole(g, user, roles) <==>
            exists n :: n in RoleListNames(roles) && n in RoleNames(g, user.userId)
  {
    var u := user.userId;
    var names := RoleListNames(roles);
    if HasAnyRole(g, user, roles) {
      var n;
      if user.roles.Some? {
        var rs := user.roles.value;
        var i :| 0 <= i < |rs| && rs[i].roleName in names;
        assert RoleMatches(g, u, rs[i]);
        n := rs[i].roleName;
      } else {
        var r :| r in g.roles && (u, r) in g.userRoles && g.roles[r] in names;
        n := g.roles[r];
      }
      assert n in names && n in RoleNames(g, u);
    }
    if exists n :: n in names && n in RoleNames(g, u) {
      var n :| n in names && n in RoleNames(g, u);
      var r :| r in g.roles && (u, r) in g.userRoles && g.roles[r] == n;
      if user.roles.Some? {
        var rs := user.roles.value;
        var i :| 0 <= i < |rs| && rs[i].roleId == r;
        assert RoleMatches(g, u, rs[i]);
      }
    }
  }

  lemma HasAnyRoleOfNoNames(g: Graph, user: User)
    ensures !HasAnyRole(g, user, RoleArray([]))
  {
  }

  lemma {:induction false} SomeLoadedRoleGrantsMeans(g: Graph, rs: seq<LoadedRole>, name: string)
    ensures SomeLoadedRoleGrants(g, rs, name) <==> exists i :: 0 <= i < |rs| && RoleGrants(g, rs[i], name)
    decreases |rs|
  {
    if rs != [] {
      SomeLoadedRoleGrantsMeans(g, rs[1..], name);
      if exists i :: 0 <= i < |rs| && RoleGrants(g, rs[i], name) {
        var i :| 0 <= i < |rs| && RoleGrants(g, rs[i], name);
        if i > 0 {
          assert rs[1..][i - 1] == rs[i];
        }
      }
      if SomeLoadedRoleGrants(g, rs[1..], name) && !RoleGrants(g, rs[0], name) {
        var k :| 0 <= k < |rs[1..]| && RoleGrants(g, rs[1..][k], name);
        assert rs[k + 1] == rs[1..][k];
      }
    }
  }

  /** The loop stops at the first granting role: whatever roles follow a
      prefix that already grants the permission are never consulted. */
  lemma {:induction false} SomeLoadedRoleGrantsStopsEarly(g: Graph, prefix: seq<LoadedRole>, rest: seq<LoadedRole>, name: string)
    requires SomeLoadedRoleGrants(g, prefix, name)
    ensures SomeLoadedRoleGrants(g, prefix + rest, name)
    decreases |prefix|
  {
    assert prefix != [];
    assert (prefix + rest)[0] == prefix[0];
    if !RoleGrants(g, prefix[0], name) {
      SomeLoadedRoleGrantsStopsEarly(g, prefix[1..], rest, name);
      assert (prefix + rest)[1..] == prefix[1..] + rest;
    }
  }

  lemma RoleGrantsAgrees(g: Graph, u: UserId, lr: LoadedRole, name: string)
    requires RoleMatches(g, u, lr)
    ensures RoleGrants(g, lr, name) <==> RoleGrantsInGraph(g, lr.roleId, name)
  {
    if lr.permissions.Some? {
      var ps := lr.permissions.value;
      if RoleGrants(g, lr, name) {
        var i :| 0 <= i < |ps| && ps[i].permissionName == name;
        assert ps[i].permissionId in g.permissions;
      }
      if RoleGrantsInGraph(g, lr.roleId, name) {
        var p :| p in g.permissions && (lr.roleId, p) in g.rolePermissions && g.permissions[p] == name;
        var i :| 0 <= i < |ps| && ps[i].permissionId == p;
        assert ps[i].permissionName == name;
      }
    }
  }

  lemma HasPermissionAgrees(g: Graph, user: User, name: string)
    requires Consistent(g, user)
    ensures HasPermission(g, user, name) <==> name in EffectivePermissions(g, user.userId)
  {
    var u := user.userId;
    EffectivePermissionsMeans(g, u, name);
    if user.roles.Some? {
      var rs := user.roles.value;
      SomeLoadedRoleGrantsMeans(g, rs, name);
      if HasPermission(g, user, name) {
        var i :| 0 <= i < |rs| && RoleGrants(g, rs[i], name);
        RoleGrantsAgrees(g, u, rs[i], name);
      }
      if name in EffectivePermissions(g, u) {
        var r :| r in g.roles && (u, r) in g.userRoles && RoleGrantsInGraph(g, r, name);
        var i :| 0 <= i < |rs| && rs[i].roleId == r;
        RoleGrantsAgrees(g, u, rs[i], name);
      }
    }
  }

  /** The three loading states (roles and permissions loaded, only roles
      loaded, nothing loaded) give the same answer. */
  lemma HasPermissionBranchesAgree(g: Graph, u: UserId, rs: seq<LoadedRole>, name: string)
    requires RolesMatch(g, u, rs)
    ensures HasPermission(g, User(u, Some(rs)), name) == HasPermission(g, User(u, None), name)
  {
    HasPermissionAgrees(g, User(u, Some(rs)), name);
    HasPermissionAgrees(g, User(u, None), name);
  }

  /** A permission that two roles of the user both grant is still granted. */
  lemma HasPermissionViaTwoRoles(g: Graph, user: User, r1: RoleId, r2: RoleId, name: string)
    requires Consistent(g, user)
    requires r1 in g.roles && r2 in g.roles && r1 != r2
    requires (user.userId, r1) in g.userRoles && (user.userId, r2) in g.userRoles
    requires RoleGrantsInGraph(g, r1, name) && RoleGrantsInGraph(g, r2, name)
    ensures HasPermission(g, user, name)
  {
    HasPermissionAgrees(g, user, name);
    EffectivePermissionsMeans(g, user.userId, name);
  }

  /** A name that no stored permission carries is never granted. */
  lemma UnknownPermissionDenied(g: Graph, user: User, name: string)
    requires Consistent(g, user)
    requires name !in Names(g.permissions)
    ensures !HasPermission(g, user, name)
  {
    HasPermissionAgrees(g, user, name);
  }
}

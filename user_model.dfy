/** The derived attributes and access helpers of the User model: the full
    name accessor, the flattened permission list and the project-access
    check. The permission list is proved to carry exactly the effective
    permissions, each name once. */
module UserModel {
  import opened Domain
  import opened HasRoles

  /** The `full_name` accessor: first name, one space, last name. */
  function FullName(first: string, last: string): (r: string)
    ensures |r| == |first| + 1 + |last|
    ensures r[..|first|] == first && r[|first|] == ' ' && r[|first| + 1..] == last
  {
    first + " " + last
  }

  // ------------------------------------------------------------------
  // Lazily loaded relations

  /** Some listing of a finite set. The relation queries carry no ORDER BY,
      so the order in which a lazily loaded relation arrives is not fixed;
      the model picks an arbitrary one and proves nothing that depends on it. */
  ghost function Enumerate(s: set<int>): (r: seq<int>)
    ensures |r| == |s|
    ensures forall x :: x in r <==> x in s
  {
    if exists x :: x in s then
      var x :| x in s;
      [x] + Enumerate(s - {x})
    else
      assert s == {};
      []
  }

  /** `$role->permissions` when it is not loaded yet. */
  ghost function LazyPermissions(g: Graph, r: RoleId): seq<LoadedPermission> {
    var ids := Enumerate(set p | p in g.permissions && (r, p) in g.rolePermissions);
    assert forall i :: 0 <= i < |ids| ==> ids[i] in ids;
    seq(|ids|, i requires 0 <= i < |ids| => LoadedPermission(ids[i], g.permissions[ids[i]]))
  }

  /** `$user->roles` when it is not loaded yet; the roles come without permissions. */
  ghost function LazyRoles(g: Graph, u: UserId): seq<LoadedRole> {
    var ids := Enumerate(set r | r in g.roles && (u, r) in g.userRoles);
    assert forall i :: 0 <= i < |ids| ==> ids[i] in ids;
    seq(|ids|, i requires 0 <= i < |ids| => LoadedRole(ids[i], g.roles[ids[i]], None))
  }

  ghost function RolesCollection(g: Graph, user: User): seq<LoadedRole> {
    match user.roles
    case Some(rs) => rs
    case None => LazyRoles(g, user.userId)
  }

  ghost function PermissionsCollection(g: Graph, lr: LoadedRole): seq<LoadedPermission> {
    match lr.permissions
    case Some(ps) => ps
    case None => LazyPermissions(g, lr.roleId)
  }

  lemma LazyPermissionsMatch(g: Graph, r: RoleId)
    ensures PermissionsMatch(g, r, LazyPermissions(g, r))
  {
    var ids := Enumerate(set p | p in g.permissions && (r, p) in g.rolePermissions);
    var ps := LazyPermissions(g, r);
    forall i | 0 <= i < |ps|
      ensures ps[i].permissionId in g.permissions && g.permissions[ps[i].permissionId] == ps[i].permissionName
      ensures (r, ps[i].permissionId) in g.rolePermissions
    {
      assert ids[i] in ids;
    }
    forall p | p in g.permissions && (r, p) in g.rolePermissions
      ensures exists i :: 0 <= i < |ps| && ps[i].permissionId == p
    {
      assert p in ids;
      var i :| 0 <= i < |ids| && ids[i] == p;
      assert ps[i].permissionId == p;
    }
  }

  lemma LazyRolesMatch(g: Graph, u: UserId)
    ensures RolesMatch(g, u, LazyRoles(g, u))
  {
    var ids := Enumerate(set r | r in g.roles && (u, r) in g.userRoles);
    var rs := LazyRoles(g, u);
    forall i | 0 <= i < |rs| ensures RoleMatches(g, u, rs[i]) {
      assert ids[i] in ids;
    }
    forall r | r in g.roles && (u, r) in g.userRoles
      ensures exists i :: 0 <= i < |rs| && rs[i].roleId == r
    {
      assert r in ids;
      var i :| 0 <= i < |ids| && ids[i] == r;
      assert rs[i].roleId == r;
    }
  }

  // ------------------------------------------------------------------
  // permissions(): flatMap over the roles, then unique by name

  predicate HasName(ps: seq<LoadedPermission>, n: string) {
    exists i :: 0 <= i < |ps| && ps[i].permissionName == n
  }

  ghost function FlatMap(g: Graph, rs: seq<LoadedRole>): seq<LoadedPermission>
    decreases |rs|
  {
    if rs == [] then [] else PermissionsCollection(g, rs[0]) + FlatMap(g, rs[1..])
  }

  /** `unique('permission_name')`: keeps the first permission of each name,
      in order, skipping names in `seen`. */
  function UniqueByName(ps: seq<LoadedPermission>, seen: set<string>): (r: seq<LoadedPermission>)
    ensures forall i :: 0 <= i < |r| ==> r[i] in ps && r[i].permissionName !in seen
    ensures forall i, j :: 0 <= i < j < |r| ==> r[i].permissionName != r[j].permissionName
    decreases |ps|
  {
    if ps == [] then []
    else if ps[0].permissionName in seen then UniqueByName(ps[1..], seen)
    else [ps[0]] + UniqueByName(ps[1..], seen + {ps[0].permissionName})
  }

  lemma HasNameSplit(ps: seq<LoadedPermission>, n: string)
    requires ps != []
    ensures HasName(ps, n) <==> ps[0].permissionName == n || HasName(ps[1..], n)
  {
    if HasName(ps, n) && ps[0].permissionName != n {
      var i :| 0 <= i < |ps| && ps[i].permissionName == n;
      assert ps[1..][i - 1] == ps[i];
    }
    if HasName(ps[1..], n) {
      var i :| 0 <= i < |ps[1..]| && ps[1..][i].permissionName == n;
      assert ps[i + 1] == ps[1..][i];
    }
  }

  /** No name is lost: a name survives exactly when it occurs and was not seen. */
  lemma {:induction false} UniqueByNameNames(ps: seq<LoadedPermission>, seen: set<string>, n: string)
    ensures HasName(UniqueByName(ps, seen), n) <==> HasName(ps, n) && n !in seen
    decreases |ps|
  {
    if ps != [] {
      HasNameSplit(ps, n);
      var head := ps[0].permissionName;
      if head in seen {
        UniqueByNameNames(ps[1..], seen, n);
      } else {
        UniqueByNameNames(ps[1..], seen + {head}, n);
        var r := UniqueByName(ps, seen);
        HasNameSplit(r, n);
        assert r[1..] == UniqueByName(ps[1..], seen + {head});
      }
    }
  }

  /** The `permissions()` helper: every permission of every role, each name once. */
  ghost function Permissions(g: Graph, user: User): seq<LoadedPermission> {
    UniqueByName(FlatMap(g, RolesCollection(g, user)), {})
  }

  lemma {:induction false} FlatMapNames(g: Graph, rs: seq<LoadedRole>, n: string)
    ensures HasName(FlatMap(g, rs), n) <==> exists i :: 0 <= i < |rs| && HasName(PermissionsCollection(g, rs[i]), n)
    decreases |rs|
  {
    if rs != [] {
      FlatMapNames(g, rs[1..], n);
      var head := PermissionsCollection(g, rs[0]);
      var tail := FlatMap(g, rs[1..]);
      assert FlatMap(g, rs) == head + tail;
      if HasName(head + tail, n) {
        var k :| 0 <= k < |head + tail| && (head + tail)[k].permissionName == n;
        if k < |head| {
          assert head[k] == (head + tail)[k];
          assert HasName(PermissionsCollection(g, rs[0]), n);
        } else {
          assert tail[k - |head|] == (head + tail)[k];
          var i :| 0 <= i < |rs[1..]| && HasName(PermissionsCollection(g, rs[1..][i]), n);
          assert rs[i + 1] == rs[1..][i];
        }
      }
      if exists i :: 0 <= i < |rs| && HasName(PermissionsCollection(g, rs[i]), n) {
        var i :| 0 <= i < |rs| && HasName(PermissionsCollection(g, rs[i]), n);
        if i == 0 {
          var k :| 0 <= k < |head| && head[k].permissionName == n;
          assert (head + tail)[k] == head[k];
        } else {
          assert rs[1..][i - 1] == rs[i];
          var k :| 0 <= k < |tail| && tail[k].permissionName == n;
          assert (head + tail)[|head| + k] == tail[k];
        }
      }
    }
  }

  lemma LoadedNamesAgree(g: Graph, r: RoleId, ps: seq<LoadedPermission>, n: string)
    requires PermissionsMatch(g, r, ps)
    ensures HasName(ps, n) <==> RoleGrantsInGraph(g, r, n)
  {
    if RoleGrantsInGraph(g, r, n) {
      var p :| p in g.permissions && (r, p) in g.rolePermissions && g.permissions[p] == n;
      var i :| 0 <= i < |ps| && ps[i].permissionId == p;
      assert ps[i].permissionName == n;
    }
  }

  lemma CollectionNamesAgree(g: Graph, u: UserId, lr: LoadedRole, n: string)
    requires RoleMatches(g, u, lr)
    ensures HasName(PermissionsCollection(g, lr), n) <==> RoleGrantsInGraph(g, lr.roleId, n)
  {
    if lr.permissions.None? {
      LazyPermissionsMatch(g, lr.roleId);
    }
    LoadedNamesAgree(g, lr.roleId, PermissionsCollection(g, lr), n);
  }

  /** The flattened list names exactly the effective permissions, whichever
      relations were loaded beforehand. */
  lemma PermissionsAreEffective(g: Graph, user: User, n: string)
    requires Consistent(g, user)
    ensures HasName(Permissions(g, user), n) <==> n in EffectivePermissions(g, user.userId)
  {
    var u := user.userId;
    var rs := RolesCollection(g, user);
    if user.roles.None? {
      LazyRolesMatch(g, u);
    }
    assert RolesMatch(g, u, rs);
    UniqueByNameNames(FlatMap(g, rs), {}, n);
    FlatMapNames(g, rs, n);
    EffectivePermissionsMeans(g, u, n);
    if HasName(Permissions(g, user), n) {
      var i :| 0 <= i < |rs| && HasName(PermissionsCollection(g, rs[i]), n);
      CollectionNamesAgree(g, u, rs[i], n);
    }
    if n in EffectivePermissions(g, u) {
      var r :| r in g.roles && (u, r) in g.userRoles && RoleGrantsInGraph(g, r, n);
      var i :| 0 <= i < |rs| && rs[i].roleId == r;
      CollectionNamesAgree(g, u, rs[i], n);
    }
  }

  /** The flattened list and hasPermission never disagree. */
  lemma PermissionsAgreeWithHasPermission(g: Graph, user: User, n: string)
    requires Consistent(g, user)
    ensures HasName(Permissions(g, user), n) <==> HasPermission(g, user, n)
  {
    PermissionsAreEffective(g, user, n);
    HasPermissionAgrees(g, user, n);
  }

  /** Each permission name occurs once in the flattened list. */
  lemma PermissionsAreDistinct(g: Graph, user: User)
    ensures forall i, j :: 0 <= i < j < |Permissions(g, user)| ==>
              Permissions(g, user)[i].permissionName != Permissions(g, user)[j].permissionName
  {
  }

  // ------------------------------------------------------------------
  // hasAccessToProject

  /** The Executive role, then an advisor assignment, then a team assignment. */
  predicate HasAccessToProject(g: Graph, user: User, rel: Relations, p: ProjectId) {
    if HasRole(g, user, EXECUTIVE) then true
    else if IsAdvisor(rel, user.userId, p) then true
    else TeamAccess(rel, user.userId, p)
  }

  /** Access holds exactly when one of the three channels applies; the first
      one is the role name Executive, not a permission. */
  lemma HasAccessToProjectMeans(g: Graph, user: User, rel: Relations, p: ProjectId)
    requires Consistent(g, user)
    ensures HasAccessToProject(g, user, rel, p) <==>
            EXECUTIVE in RoleNames(g, user.userId) || IsAdvisor(rel, user.userId, p) || TeamAccess(rel, user.userId, p)
  {
    HasRoleAgrees(g, user, EXECUTIVE);
  }
}

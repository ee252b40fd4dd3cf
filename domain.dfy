/** Shared vocabulary of the access-control core: identifiers, the stored
    permission graph, the relationship pivots the policies read, and the
    user row. Every table is keyed the way its primary key is declared. */
module Domain {

  type UserId = int
  type RoleId = int
  type PermissionId = int
  type TeamId = int
  type ProjectId = int
  type ReviewId = int

  datatype Option<+T> = None | Some(value: T) {
    function GetOr(default: T): T {
      match this
      case Some(v) => v
      case None => default
    }
  }

  datatype Result<+R, +E> = Success(value: R) | Failure(error: E)

  /** The value an update writes for a request field under a `sometimes`
      rule, where the field is None when the key is absent, Some(None) when
      it is sent as null or blank, and Some(Some(v)) when it carries v: an
      absent field keeps `current`, a carried value replaces it. */
  function SentOr<T>(field: Option<Option<T>>, current: T): (r: T)
    ensures field.None? ==> r == current
    ensures field.Some? && field.value.Some? ==> r == field.value.value
  {
    field.GetOr(None).GetOr(current)
  }

  /** Role names, as the constants of the Role model spell them. */
  const EXECUTIVE: string := "Executive"
  const MANAGER: string := "Manager"
  const ASSOCIATE: string := "Associate"

  /** Permission names of the seeded catalogue, as the policies spell them. */
  const USERS_CREATE: string := "users.create"
  const USERS_VIEW_ANY: string := "users.view_any"
  const USERS_UPDATE: string := "users.update"
  const USERS_DELETE: string := "users.delete"
  const TEAMS_CREATE: string := "teams.create"
  const TEAMS_UPDATE: string := "teams.update"
  const TEAMS_MANAGE_ROSTER: string := "teams.manage_roster"
  const TEAMS_VIEW_ANY: string := "teams.view_any"
  const PROJECTS_CREATE: string := "projects.create"
  const PROJECTS_UPDATE: string := "projects.update"
  const PROJECTS_DELETE: string := "projects.delete"
  const PROJECTS_VIEW_ALL: string := "projects.view_all"
  const PROJECTS_ASSIGN_TEAMS: string := "projects.assign_teams"
  const PROJECTS_ASSIGN_ADVISORS: string := "projects.assign_advisors"
  const REVIEWS_CREATE: string := "reviews.create"
  const REVIEWS_UPDATE_OWN: string := "reviews.update_own"
  const REVIEWS_DELETE_OWN: string := "reviews.delete_own"
  const REVIEWS_DELETE_ANY: string := "reviews.delete_any"
  const REVIEWS_VIEW_NAMES: string := "reviews.view_names"

  /** The role/permission graph as the database stores it: the `roles` and
      `permissions` lookup tables (id to unique name) and the two pivots
      `user_roles` and `role_permissions`. */
  datatype Graph = Graph(
    roles: map<RoleId, string>,
    permissions: map<PermissionId, string>,
    userRoles: set<(UserId, RoleId)>,
    rolePermissions: set<(RoleId, PermissionId)>)

  /** The relationship facts the policies reason over: the live (not
      soft-deleted) projects and the pivots `team_members`, `project_teams`
      and `project_advisors`. */
  datatype Relations = Relations(
    projects: set<ProjectId>,
    teamMembers: set<(TeamId, UserId)>,
    projectTeams: set<(ProjectId, TeamId)>,
    projectAdvisors: set<(ProjectId, UserId)>)

  /** A row of the `users` table; `deleted` is the soft-delete marker. */
  datatype UserRow = UserRow(
    firstName: string,
    lastName: string,
    email: string,
    passwordHash: string,
    isActive: bool,
    deleted: bool)

  /** The user exists and is not soft-deleted: what a model lookup finds. */
  predicate LiveUser(users: map<UserId, UserRow>, u: UserId) {
    u in users && !users[u].deleted
  }

  /** A row of the `projects` table (timestamps left out); `createdBy` is
      null once the creator's row is gone. */
  datatype ProjectRow = ProjectRow(
    name: string,
    description: Option<string>,
    status: string,
    createdBy: Option<UserId>)

  /** A row of the `reviews` table (timestamps left out). */
  datatype Review = Review(
    reviewId: ReviewId,
    projectId: ProjectId,
    reviewerId: UserId,
    rating: int,
    content: string)

  /** The names of the roles a user holds in the stored graph. */
  function RoleNames(g: Graph, u: UserId): set<string> {
    set r | r in g.roles && (u, r) in g.userRoles :: g.roles[r]
  }

  /** The names stored in a lookup table. */
  function Names(table: map<int, string>): set<string> {
    set k | k in table :: table[k]
  }

  /** Whether a role grants a permission of the given name in the stored graph. */
  predicate RoleGrantsInGraph(g: Graph, r: RoleId, name: string) {
    exists p :: p in g.permissions && (r, p) in g.rolePermissions && g.permissions[p] == name
  }

  /** The effective permissions of a user: the union, over the roles the user
      holds, of the names of the permissions those roles grant. */
  function EffectivePermissions(g: Graph, u: UserId): set<string> {
    set r, p | r in g.roles && (u, r) in g.userRoles && p in g.permissions && (r, p) in g.rolePermissions
      :: g.permissions[p]
  }

  lemma EffectivePermissionsMeans(g: Graph, u: UserId, name: string)
    ensures name in EffectivePermissions(g, u) <==>
            exists r :: r in g.roles && (u, r) in g.userRoles && RoleGrantsInGraph(g, r, name)
  {
    if name in EffectivePermissions(g, u) {
      var r, p :| r in g.roles && (u, r) in g.userRoles && p in g.permissions
        && (r, p) in g.rolePermissions && g.permissions[p] == name;
      assert RoleGrantsInGraph(g, r, name);
    }
  }

  /** Whether the user belongs to some team assigned to the project. */
  predicate InAssignedTeam(rel: Relations, u: UserId, p: ProjectId) {
    exists m :: m in rel.teamMembers && m.1 == u && (p, m.0) in rel.projectTeams
  }

  /** Whether the user is an advisor of the (live) project. */
  predicate IsAdvisor(rel: Relations, u: UserId, p: ProjectId) {
    p in rel.projects && (p, u) in rel.projectAdvisors
  }

  /** Whether the user reaches the (live) project through a team. */
  predicate TeamAccess(rel: Relations, u: UserId, p: ProjectId) {
    p in rel.projects && InAssignedTeam(rel, u, p)
  }

  /** A pivot after Eloquent's `sync(bs)` on the owner `a`: the owner's rows
      become exactly the listed ones, and every other owner's rows stay. */
  function SyncPivot(rows: set<(int, int)>, a: int, bs: set<int>): (r: set<(int, int)>)
    ensures forall b :: (a, b) in r <==> b in bs
    ensures forall m :: m in r && m.0 != a <==> m in rows && m.0 != a
  {
    (set m | m in rows && m.0 != a) + (set b | b in bs :: (a, b))
  }

  /** Syncing twice with the same list is syncing once. */
  lemma SyncPivotIdempotent(rows: set<(int, int)>, a: int, bs: set<int>)
    ensures SyncPivot(SyncPivot(rows, a, bs), a, bs) == SyncPivot(rows, a, bs)
  {
    var once := SyncPivot(rows, a, bs);
    var twice := SyncPivot(once, a, bs);
    forall m | m in twice ensures m in once {
      if m.0 == a {
        assert (a, m.1) in twice;
      }
    }
    forall m | m in once ensures m in twice {
      if m.0 == a {
        assert (a, m.1) in once;
      }
    }
  }

  /** Relations `a` is contained in `b`, pivot by pivot. */
  predicate SubRelations(a: Relations, b: Relations) {
    a.projects <= b.projects && a.teamMembers <= b.teamMembers
    && a.projectTeams <= b.projectTeams && a.projectAdvisors <= b.projectAdvisors
  }
}

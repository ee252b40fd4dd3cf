/** The database the credential and relationship operations change: one
    field per table or pivot, and the constraints the migrations declare
    (unique names, emails and token hashes, foreign keys) as the invariant
    `Valid`. */
module Schema {
  import opened Domain
  import opened RefreshTokenModel

  predicate UniqueNames(m: map<int, string>) {
    forall a, b :: a in m && b in m && a != b ==> m[a] != m[b]
  }

  predicate UniqueEmails(users: map<UserId, UserRow>) {
    forall a, b :: a in users && b in users && a != b ==> users[a].email != users[b].email
  }

  /** The row with that name in a table whose names are unique. */
  ghost function RoleByName(roles: map<RoleId, string>, name: string): Option<RoleId> {
    if exists r :: r in roles && roles[r] == name then
      Some(var r :| r in roles && roles[r] == name; r)
    else None
  }

  lemma RoleByNameIs(roles: map<RoleId, string>, name: string, r: RoleId)
    requires UniqueNames(roles) && r in roles && roles[r] == name
    ensures RoleByName(roles, name) == Some(r)
  {
  }

  class Database {
    /** `users`, soft-deleted rows included; ids come from `nextUserId`. */
    var users: map<UserId, UserRow>
    var nextUserId: int
    var roles: map<RoleId, string>
    var permissions: map<PermissionId, string>
    var nextPermissionId: int
    var userRoles: set<(UserId, RoleId)>
    var rolePermissions: set<(RoleId, PermissionId)>
    var teams: set<TeamId>
    /** Every `projects` row, and those among them that are soft-deleted. */
    var projectRows: map<ProjectId, ProjectRow>
    var nextProjectId: int
    var deletedProjects: set<ProjectId>
    var teamMembers: set<(TeamId, UserId)>
    var projectTeams: set<(ProjectId, TeamId)>
    var projectAdvisors: set<(ProjectId, UserId)>
    var refreshTokens: seq<RefreshToken>

    /** Every row id is below the next id its table hands out. */
    ghost predicate IdsBelowNext()
      reads this`users, this`nextUserId, this`permissions, this`nextPermissionId, this`projectRows, this`nextProjectId
    {
      && (forall u :: u in users ==> u < nextUserId)
      && (forall p :: p in permissions ==> p < nextPermissionId)
      && (forall p :: p in projectRows ==> p < nextProjectId)
    }

    /** The foreign keys of the two pivots of the permission graph. */
    ghost predicate GraphLinks()
      reads this`users, this`roles, this`permissions, this`userRoles, this`rolePermissions
    {
      && (forall m :: m in userRoles ==> m.0 in users && m.1 in roles)
      && (forall m :: m in rolePermissions ==> m.0 in roles && m.1 in permissions)
    }

    /** The foreign keys of the team and project pivots. */
    ghost predicate RelationLinks()
      reads this`users, this`teams, this`projectRows, this`deletedProjects,
            this`teamMembers, this`projectTeams, this`projectAdvisors
    {
      && (forall m :: m in teamMembers ==> m.0 in teams && m.1 in users)
      && (forall m :: m in projectTeams ==> m.0 in projectRows && m.1 in teams)
      && (forall m :: m in projectAdvisors ==> m.0 in projectRows && m.1 in users)
      && deletedProjects <= projectRows.Keys
    }

    /** Token hashes are unique and every token belongs to a user row. */
    ghost predicate TokenLinks()
      reads this`users, this`refreshTokens
    {
      && UniqueHashes(refreshTokens)
      && (forall i :: 0 <= i < |refreshTokens| ==> refreshTokens[i].userId in users)
    }

    ghost predicate Valid()
      reads this
    {
      && IdsBelowNext()
      && UniqueNames(roles) && UniqueNames(permissions) && UniqueEmails(users)
      && GraphLinks() && RelationLinks() && TokenLinks()
    }

    /** The stored role/permission graph. */
    function Graph(): Graph
      reads this
    {
      Domain.Graph(roles, permissions, userRoles, rolePermissions)
    }

    /** The relationship facts, with soft-deleted projects hidden. */
    function Relations(): Relations
      reads this
    {
      Domain.Relations(projectRows.Keys - deletedProjects, teamMembers, projectTeams, projectAdvisors)
    }

    constructor ()
      ensures Valid()
      ensures users == map[] && roles == map[] && permissions == map[]
      ensures userRoles == {} && rolePermissions == {} && teams == {} && projectRows == map[]
      ensures teamMembers == {} && projectTeams == {} && projectAdvisors == {} && refreshTokens == []
    {
      users := map[];
      nextUserId := 1;
      roles := map[];
      permissions := map[];
      nextPermissionId := 1;
      userRoles := {};
      rolePermissions := {};
      teams := {};
      projectRows := map[];
      nextProjectId := 1;
      deletedProjects := {};
      teamMembers := {};
      projectTeams := {};
      projectAdvisors := {};
      refreshTokens := [];
    }
  }
}

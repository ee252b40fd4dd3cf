/** The relationship changes that feed the project policy: replacing a
    project's teams, adding an advisor (active users only) and removing one.
    Team changes touch only `project_teams`, advisor changes only
    `project_advisors`. */
module AssignmentService {
  import opened Domain
  import opened HasRoles
  import opened Schema
  import ProjectPolicy

  datatype AssignmentError =
    | UnknownTeam      // a listed team has no row; the transaction rolls back
    | NotFound         // `findOrFail`: no live user with that id
    | InactiveUser     // "Cannot assign inactive user."

  /** `syncProjectTeams(project, teamIds)`, for a project row that exists. */
  method SyncProjectTeams(db: Database, p: ProjectId, teamIds: seq<TeamId>) returns (r: Result<ProjectId, AssignmentError>)
    requires db.Valid() && p in db.projectRows
    modifies db`projectTeams
    ensures db.Valid()
    ensures (exists i :: 0 <= i < |teamIds| && teamIds[i] !in db.teams) ==>
              r == Failure(UnknownTeam) && db.projectTeams == old(db.projectTeams)
    ensures (forall i :: 0 <= i < |teamIds| ==> teamIds[i] in db.teams) ==>
              r == Success(p) && db.projectTeams == SyncPivot(old(db.projectTeams), p, set i | 0 <= i < |teamIds| :: teamIds[i])
  {
    if exists i :: 0 <= i < |teamIds| && teamIds[i] !in db.teams {
      return Failure(UnknownTeam);
    }
    db.projectTeams := SyncPivot(db.projectTeams, p, set i | 0 <= i < |teamIds| :: teamIds[i]);
    r := Success(p);
  }

  /** `assignAdvisor(project, userId)`. */
  method AssignAdvisor(db: Database, p: ProjectId, u: UserId) returns (r: Result<ProjectId, AssignmentError>)
    requires db.Valid() && p in db.projectRows
    modifies db`projectAdvisors
    ensures db.Valid()
    ensures !LiveUser(db.users, u) ==> r == Failure(NotFound) && db.projectAdvisors == old(db.projectAdvisors)
    ensures LiveUser(db.users, u) && !db.users[u].isActive ==>
              r == Failure(InactiveUser) && db.projectAdvisors == old(db.projectAdvisors)
    ensures LiveUser(db.users, u) && db.users[u].isActive ==>
              r == Success(p) && db.projectAdvisors == old(db.projectAdvisors) + {(p, u)}
  {
    if !(u in db.users && !db.users[u].deleted) {
      return Failure(NotFound);
    }
    if !db.users[u].isActive {
      return Failure(InactiveUser);
    }
    db.projectAdvisors := db.projectAdvisors + {(p, u)};
    r := Success(p);
  }

  /** `removeAdvisor(project, userId)`: only that one row goes, if present. */
  method RemoveAdvisor(db: Database, p: ProjectId, u: UserId)
    requires db.Valid()
    modifies db`projectAdvisors
    ensures db.Valid()
    ensures db.projectAdvisors == old(db.projectAdvisors) - {(p, u)}
  {
    db.projectAdvisors := db.projectAdvisors - {(p, u)};
  }

  /** A new advisor of a live project may view it from then on. */
  lemma AssignedAdvisorMayView(g: Graph, user: User, rel: Relations, p: ProjectId)
    requires p in rel.projects
    ensures ProjectPolicy.View(g, user, rel.(projectAdvisors := rel.projectAdvisors + {(p, user.userId)}), p)
  {
  }

  /** Once removed as advisor, a user views the project only through the
      bypass or a team. */
  lemma RemovedAdvisorView(g: Graph, user: User, rel: Relations, p: ProjectId)
    ensures ProjectPolicy.View(g, user, rel.(projectAdvisors := rel.projectAdvisors - {(p, user.userId)}), p) <==>
            HasPermission(g, user, PROJECTS_VIEW_ALL) || TeamAccess(rel, user.userId, p)
  {
  }

  /** After a team sync, a user who neither holds the bypass nor advises the
      project views it exactly when they belong to one of the listed teams. */
  lemma SyncedTeamsDecideView(g: Graph, user: User, rel: Relations, p: ProjectId, ids: set<TeamId>)
    requires p in rel.projects
    requires !HasPermission(g, user, PROJECTS_VIEW_ALL) && (p, user.userId) !in rel.projectAdvisors
    ensures ProjectPolicy.View(g, user, rel.(projectTeams := SyncPivot(rel.projectTeams, p, ids)), p) <==>
            exists t :: t in ids && (t, user.userId) in rel.teamMembers
  {
    var rel' := rel.(projectTeams := SyncPivot(rel.projectTeams, p, ids));
    if exists t :: t in ids && (t, user.userId) in rel.teamMembers {
      var t :| t in ids && (t, user.userId) in rel.teamMembers;
      var m := (t, user.userId);
      assert m in rel'.teamMembers && m.1 == user.userId && (p, m.0) in rel'.projectTeams;
    }
  }
}

/** The authorization rules for projects. Viewing a project has three
    tiers in order: the `projects.view_all` permission, an advisor
    assignment to that project, a team assigned to that project; every
    other ability is one permission regardless of the project. */
module ProjectPolicy {
  import opened Domain
  import opened HasRoles

  /** Every authenticated user may open the project list. */
  predicate ViewAny(g: Graph, user: User) {
    true
  }

  predicate View(g: Graph, user: User, rel: Relations, p: ProjectId) {
    if HasPermission(g, user, PROJECTS_VIEW_ALL) then true
    else if IsAdvisor(rel, user.userId, p) then true
    else TeamAccess(rel, user.userId, p)
  }

  predicate Create(g: Graph, user: User) {
    HasPermission(g, user, PROJECTS_CREATE)
  }

  predicate Update(g: Graph, user: User, p: ProjectId) {
    HasPermission(g, user, PROJECTS_UPDATE)
  }

  predicate Delete(g: Graph, user: User, p: ProjectId) {
    HasPermission(g, user, PROJECTS_DELETE)
  }

  predicate AssignTeams(g: Graph, user: User, p: ProjectId) {
    HasPermission(g, user, PROJECTS_ASSIGN_TEAMS)
  }

  predicate AssignAdvisors(g: Graph, user: User, p: ProjectId) {
    HasPermission(g, user, PROJECTS_ASSIGN_ADVISORS)
  }

  /** Every ability other than viewing is its one permission, whichever
      project it is asked about. */
  lemma PermissionAbilitiesIgnoreTheProject(g: Graph, user: User, p: ProjectId, q: ProjectId)
    ensures Update(g, user, p) == Update(g, user, q) == HasPermission(g, user, PROJECTS_UPDATE)
    ensures Delete(g, user, p) == Delete(g, user, q) == HasPermission(g, user, PROJECTS_DELETE)
    ensures AssignTeams(g, user, p) == AssignTeams(g, user, q) == HasPermission(g, user, PROJECTS_ASSIGN_TEAMS)
    ensures AssignAdvisors(g, user, p) == AssignAdvisors(g, user, q) == HasPermission(g, user, PROJECTS_ASSIGN_ADVISORS)
  {
  }

  /** Viewing is granted exactly when one of the three channels applies, and
      the bypass is the stored permission set, not any pivot. */
  lemma ViewMeans(g: Graph, user: User, rel: Relations, p: ProjectId)
    requires Consistent(g, user)
    ensures View(g, user, rel, p) <==>
            PROJECTS_VIEW_ALL in EffectivePermissions(g, user.userId)
            || IsAdvisor(rel, user.userId, p) || TeamAccess(rel, user.userId, p)
  {
    HasPermissionAgrees(g, user, PROJECTS_VIEW_ALL);
  }

  /** Adding projects, members, team assignments or advisors never takes a
      view right away; removing them never grants one. */
  lemma ViewMonotone(g: Graph, user: User, a: Relations, b: Relations, p: ProjectId)
    requires SubRelations(a, b)
    ensures View(g, user, a, p) ==> View(g, user, b, p)
  {
    if View(g, user, a, p) && !HasPermission(g, user, PROJECTS_VIEW_ALL) && !IsAdvisor(a, user.userId, p) {
      var m :| m in a.teamMembers && m.1 == user.userId && (p, m.0) in a.projectTeams;
      assert m in b.teamMembers;
    }
  }

  /** A soft-deleted (or unknown) project is viewed only through the bypass. */
  lemma ViewOfDeletedProject(g: Graph, user: User, rel: Relations, p: ProjectId)
    requires p !in rel.projects
    ensures View(g, user, rel, p) == HasPermission(g, user, PROJECTS_VIEW_ALL)
  {
  }

  /** Without the bypass, an advisor of one project learns nothing about
      another project they advise nothing on and have no team on. */
  lemma ViewIsPerProject(g: Graph, user: User, rel: Relations, p: ProjectId, q: ProjectId)
    requires !HasPermission(g, user, PROJECTS_VIEW_ALL)
    requires IsAdvisor(rel, user.userId, p)
    requires (q, user.userId) !in rel.projectAdvisors && !InAssignedTeam(rel, user.userId, q)
    ensures View(g, user, rel, p) && !View(g, user, rel, q)
  {
  }
}

/** The authorization rules for teams: each ability is one permission;
    viewing a roster uses the same permission as listing teams. */
module TeamPolicy {
  import opened Domain
  import opened HasRoles

  predicate ViewAny(g: Graph, user: User) {
    HasPermission(g, user, TEAMS_VIEW_ANY)
  }

  predicate View(g: Graph, user: User, t: TeamId) {
    HasPermission(g, user, TEAMS_VIEW_ANY)
  }

  predicate Create(g: Graph, user: User) {
    HasPermission(g, user, TEAMS_CREATE)
  }

  predicate Update(g: Graph, user: User, t: TeamId) {
    HasPermission(g, user, TEAMS_UPDATE)
  }

  predicate ManageRoster(g: Graph, user: User, t: TeamId) {
    HasPermission(g, user, TEAMS_MANAGE_ROSTER)
  }
}

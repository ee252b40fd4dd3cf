/** Roster changes: after the route binding and the `manageRoster`
    ability, `AddMember` adds one user to the team (never twice) and
    `RemoveMember` removes one; every other membership stays. */
module TeamController {
  import opened Domain
  import opened HasRoles
  import opened Schema
  import AppServiceProvider

  datatype RosterError =
    | NotFound          // 404: no such team
    | Forbidden         // 403: `manageRoster` refused
    | ValidationFailed  // 422: `exists:users,user_id` refused the id

  /** The roster decision both actions share. */
  predicate MayManage(db: Database, requester: UserId, t: TeamId)
    reads db
  {
    AppServiceProvider.Allows(db.Graph(), User(requester, None), db.Relations(), "manageRoster", AppServiceProvider.TeamOf(t))
  }

  lemma MayManageMeans(db: Database, requester: UserId, t: TeamId)
    ensures MayManage(db, requester, t) <==> HasPermission(db.Graph(), User(requester, None), TEAMS_MANAGE_ROSTER)
  {
    AppServiceProvider.PlainAbilityIsPolicy(db.Graph(), User(requester, None), db.Relations(), "manageRoster", AppServiceProvider.TeamOf(t));
  }

  /** `addMember`. The existence rule looks at every user row, soft-deleted
      ones too, so a soft-deleted user can be added (and stays invisible in
      the roster views). */
  method AddMember(db: Database, requester: UserId, t: TeamId, u: UserId) returns (r: Result<TeamId, RosterError>)
    requires db.Valid()
    modifies db`teamMembers
    ensures db.Valid()
    ensures t !in db.teams ==> r == Failure(NotFound)
    ensures t in db.teams && !HasPermission(db.Graph(), User(requester, None), TEAMS_MANAGE_ROSTER) ==>
              r == Failure(Forbidden)
    ensures t in db.teams && HasPermission(db.Graph(), User(requester, None), TEAMS_MANAGE_ROSTER) && u !in db.users ==>
              r == Failure(ValidationFailed)
    ensures r.Failure? ==> db.teamMembers == old(db.teamMembers)
    ensures r.Success? <==>
              t in db.teams && HasPermission(db.Graph(), User(requester, None), TEAMS_MANAGE_ROSTER) && u in db.users
    ensures r.Success? ==> db.teamMembers == old(db.teamMembers) + {(t, u)}
  {
    if t !in db.teams {
      return Failure(NotFound);
    }
    MayManageMeans(db, requester, t);
    if !MayManage(db, requester, t) {
      return Failure(Forbidden);
    }
    if u !in db.users {
      return Failure(ValidationFailed);
    }
    db.teamMembers := db.teamMembers + {(t, u)};
    r := Success(t);
  }

  /** `removeMember`; removing a non-member changes nothing. */
  method RemoveMember(db: Database, requester: UserId, t: TeamId, u: UserId) returns (r: Result<TeamId, RosterError>)
    requires db.Valid()
    modifies db`teamMembers
    ensures db.Valid()
    ensures t !in db.teams ==> r == Failure(NotFound)
    ensures t in db.teams && !HasPermission(db.Graph(), User(requester, None), TEAMS_MANAGE_ROSTER) ==>
              r == Failure(Forbidden)
    ensures r.Failure? ==> db.teamMembers == old(db.teamMembers)
    ensures r.Success? <==> t in db.teams && HasPermission(db.Graph(), User(requester, None), TEAMS_MANAGE_ROSTER)
    ensures r.Success? ==> db.teamMembers == old(db.teamMembers) - {(t, u)}
  {
    if t !in db.teams {
      return Failure(NotFound);
    }
    MayManageMeans(db, requester, t);
    if !MayManage(db, requester, t) {
      return Failure(Forbidden);
    }
    db.teamMembers := db.teamMembers - {(t, u)};
    r := Success(t);
  }
}

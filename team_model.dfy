/** The Team model's derived rosters. `members` is the `team_members`
    pivot seen through the users' soft-delete scope; `managers` and
    `associates` filter the members by the role they hold right now, so the
    composition of a team follows every role change and is stored nowhere. */
module TeamModel {
  import opened Domain
  import opened HasRoles

  function Members(rel: Relations, users: map<UserId, UserRow>, t: TeamId): set<UserId> {
    set m | m in rel.teamMembers && m.0 == t && LiveUser(users, m.1) :: m.1
  }

  /** `members()->whereHas('roles', role_name = name)`. */
  function MembersWithRole(g: Graph, rel: Relations, users: map<UserId, UserRow>, t: TeamId, name: string): set<UserId> {
    set u | u in Members(rel, users, t) && exists r :: r in g.roles && (u, r) in g.userRoles && g.roles[r] == name
  }

  function Managers(g: Graph, rel: Relations, users: map<UserId, UserRow>, t: TeamId): set<UserId> {
    MembersWithRole(g, rel, users, t, MANAGER)
  }

  function Associates(g: Graph, rel: Relations, users: map<UserId, UserRow>, t: TeamId): set<UserId> {
    MembersWithRole(g, rel, users, t, ASSOCIATE)
  }

  /** A soft-deleted user is in no roster, although the pivot row remains. */
  lemma MembersAreLive(rel: Relations, users: map<UserId, UserRow>, t: TeamId, u: UserId)
    ensures u in Members(rel, users, t) <==> (t, u) in rel.teamMembers && LiveUser(users, u)
  {
    if (t, u) in rel.teamMembers && LiveUser(users, u) {
      var m := (t, u);
      assert m in rel.teamMembers && m.0 == t && LiveUser(users, m.1);
    }
  }

  /** A member is listed under a role exactly when `hasRole` holds for that
      role right now; so the managers and associates are members. */
  lemma RosterByRole(g: Graph, rel: Relations, users: map<UserId, UserRow>, t: TeamId, u: UserId, name: string)
    ensures u in MembersWithRole(g, rel, users, t, name) <==>
            u in Members(rel, users, t) && HasRole(g, User(u, None), name)
    ensures Managers(g, rel, users, t) <= Members(rel, users, t)
    ensures Associates(g, rel, users, t) <= Members(rel, users, t)
  {
  }

  /** A member holding both roles is in both views; one holding neither is
      in neither. */
  lemma BothOrNeither(g: Graph, rel: Relations, users: map<UserId, UserRow>, t: TeamId, u: UserId)
    requires u in Members(rel, users, t)
    ensures MANAGER in RoleNames(g, u) && ASSOCIATE in RoleNames(g, u) ==>
              u in Managers(g, rel, users, t) && u in Associates(g, rel, users, t)
    ensures MANAGER !in RoleNames(g, u) && ASSOCIATE !in RoleNames(g, u) ==>
              u !in Managers(g, rel, users, t) && u !in Associates(g, rel, users, t)
  {
    HasRoleAgrees(g, User(u, None), MANAGER);
    HasRoleAgrees(g, User(u, None), ASSOCIATE);
    RosterByRole(g, rel, users, t, u, MANAGER);
    RosterByRole(g, rel, users, t, u, ASSOCIATE);
  }

  /** The views depend on nothing but the members' current role names: two
      graphs that agree on those give the same rosters. */
  lemma RostersFollowRoles(g1: Graph, g2: Graph, rel: Relations, users: map<UserId, UserRow>, t: TeamId, name: string)
    requires forall u :: u in Members(rel, users, t) ==> RoleNames(g1, u) == RoleNames(g2, u)
    ensures MembersWithRole(g1, rel, users, t, name) == MembersWithRole(g2, rel, users, t, name)
  {
    forall u | u in Members(rel, users, t)
      ensures u in MembersWithRole(g1, rel, users, t, name) <==> u in MembersWithRole(g2, rel, users, t, name)
    {
      HasRoleAgrees(g1, User(u, None), name);
      HasRoleAgrees(g2, User(u, None), name);
      RosterByRole(g1, rel, users, t, u, name);
      RosterByRole(g2, rel, users, t, u, name);
    }
  }
}

/** The authorization gate as the service provider configures it: the
    four policy registrations and the `before` hook that lets any dotted
    ability (a permission name) pass on that permission alone. */
module AppServiceProvider {
  import opened Domain
  import opened HasRoles
  import ProjectPolicy
  import ReviewPolicy
  import TeamPolicy
  import UserPolicy

  /** The `before` hook: Some(true) allows at once, None defers to the
      policies. */
  function Before(g: Graph, user: User, ability: string): (r: Option<bool>)
    ensures r != Some(false)
    ensures r == Some(true) <==> '.' in ability && HasPermission(g, user, ability)
    ensures '.' !in ability ==> r == None
  {
    if '.' in ability then
      if HasPermission(g, user, ability) then Some(true) else None
    else None
  }

  /** What an ability is checked against: a model class (for abilities such
      as `create`), a model instance, the Review class together with the
      project to review, or nothing at all (a bare permission check). */
  datatype Target =
    | ProjectClass
    | ProjectOf(project: ProjectId)
    | ReviewClassFor(reviewedProject: ProjectId)
    | ReviewOf(review: Review)
    | UserClass
    | UserOf(model: UserId)
    | TeamClass
    | TeamOf(team: TeamId)
    | NoTarget

  /** The registered policy method for the ability and target, or None when
      no policy class or no such method applies. The ability is matched
      exactly, as every call site in the program spells it. */
  function PolicyDecision(g: Graph, user: User, rel: Relations, ability: string, target: Target): Option<bool> {
    match target
    case ProjectClass =>
      if ability == "viewAny" then Some(ProjectPolicy.ViewAny(g, user))
      else if ability == "create" then Some(ProjectPolicy.Create(g, user))
      else None
    case ProjectOf(p) =>
      if ability == "view" then Some(ProjectPolicy.View(g, user, rel, p))
      else if ability == "update" then Some(ProjectPolicy.Update(g, user, p))
      else if ability == "delete" then Some(ProjectPolicy.Delete(g, user, p))
      else if ability == "assignTeams" then Some(ProjectPolicy.AssignTeams(g, user, p))
      else if ability == "assignAdvisors" then Some(ProjectPolicy.AssignAdvisors(g, user, p))
      else None
    case ReviewClassFor(p) =>
      if ability == "create" then Some(ReviewPolicy.Create(g, user, rel, p)) else None
    case ReviewOf(rv) =>
      if ability == "update" then Some(ReviewPolicy.Update(g, user, rv))
      else if ability == "delete" then Some(ReviewPolicy.Delete(g, user, rv))
      else if ability == "viewName" then Some(ReviewPolicy.ViewName(g, user, rv))
      else None
    case UserClass =>
      if ability == "viewAny" then Some(UserPolicy.ViewAny(g, user))
      else if ability == "create" then Some(UserPolicy.Create(g, user))
      else None
    case UserOf(m) =>
      if ability == "view" then Some(UserPolicy.View(g, user, m))
      else if ability == "update" then Some(UserPolicy.Update(g, user, m))
      else if ability == "delete" then Some(UserPolicy.Delete(g, user, m))
      else None
    case TeamClass =>
      if ability == "viewAny" then Some(TeamPolicy.ViewAny(g, user))
      else if ability == "create" then Some(TeamPolicy.Create(g, user))
      else None
    case TeamOf(t) =>
      if ability == "view" then Some(TeamPolicy.View(g, user, t))
      else if ability == "update" then Some(TeamPolicy.Update(g, user, t))
      else if ability == "manageRoster" then Some(TeamPolicy.ManageRoster(g, user, t))
      else None
    case NoTarget => None
  }

  /** `Gate::allows`: the hook first; when it defers, the policy method; when
      there is none, the ability is denied. */
  predicate Allows(g: Graph, user: User, rel: Relations, ability: string, target: Target) {
    match Before(g, user, ability)
    case Some(b) => b
    case None => PolicyDecision(g, user, rel, ability, target).GetOr(false)
  }

  /** A dotted ability is decided by that permission alone, whatever the
      target: no policy method name contains a dot. */
  lemma DottedAbilityIsPermission(g: Graph, user: User, rel: Relations, ability: string, target: Target)
    requires '.' in ability
    ensures Allows(g, user, rel, ability, target) == HasPermission(g, user, ability)
  {
    assert PolicyDecision(g, user, rel, ability, target) == None by {
      assert '.' !in "viewAny" && '.' !in "create" && '.' !in "view" && '.' !in "update";
      assert '.' !in "delete" && '.' !in "assignTeams" && '.' !in "assignAdvisors";
      assert '.' !in "viewName" && '.' !in "manageRoster";
    }
  }

  /** A plain ability goes to the policy registered for the target's class. */
  lemma PlainAbilityIsPolicy(g: Graph, user: User, rel: Relations, ability: string, target: Target)
    requires '.' !in ability
    ensures Allows(g, user, rel, ability, target) == PolicyDecision(g, user, rel, ability, target).GetOr(false)
  {
  }

  /** Each registered check reaches its own policy class. */
  lemma DispatchReachesPolicies(g: Graph, user: User, rel: Relations, p: ProjectId, rv: Review, m: UserId, t: TeamId)
    ensures Allows(g, user, rel, "view", ProjectOf(p)) == ProjectPolicy.View(g, user, rel, p)
    ensures Allows(g, user, rel, "create", ReviewClassFor(p)) == ReviewPolicy.Create(g, user, rel, p)
    ensures Allows(g, user, rel, "viewName", ReviewOf(rv)) == ReviewPolicy.ViewName(g, user, rv)
    ensures Allows(g, user, rel, "delete", UserOf(m)) == UserPolicy.Delete(g, user, m)
    ensures Allows(g, user, rel, "manageRoster", TeamOf(t)) == TeamPolicy.ManageRoster(g, user, t)
  {
    PlainAbilityIsPolicy(g, user, rel, "view", ProjectOf(p));
    PlainAbilityIsPolicy(g, user, rel, "create", ReviewClassFor(p));
    PlainAbilityIsPolicy(g, user, rel, "viewName", ReviewOf(rv));
    PlainAbilityIsPolicy(g, user, rel, "delete", UserOf(m));
    PlainAbilityIsPolicy(g, user, rel, "manageRoster", TeamOf(t));
  }

  /** The names of the policy methods the four registered policies define. */
  const POLICY_METHODS: set<string> :=
    {"viewAny", "view", "create", "update", "delete", "assignTeams", "assignAdvisors", "viewName", "manageRoster"}

  /** ASCII lower case, the folding PHP applies when it looks a method up. */
  function Lower(s: string): (r: string)
    ensures |r| == |s|
    ensures forall i :: 0 <= i < |s| && !('A' <= s[i] <= 'Z') ==> r[i] == s[i]
  {
    seq(|s|, i requires 0 <= i < |s| => if 'A' <= s[i] <= 'Z' then (s[i] as int + 32) as char else s[i])
  }

  /** An ability without a dot, without a dash, and equal to no policy
      method's name up to case is denied, on every target; dashed or
      differently cased spellings are outside this model (see
      `PolicyDecision`). */
  lemma UnknownAbilityDenied(g: Graph, user: User, rel: Relations, ability: string, target: Target)
    requires '.' !in ability && '-' !in ability
    requires forall m :: m in POLICY_METHODS ==> Lower(ability) != Lower(m)
    ensures !Allows(g, user, rel, ability, target)
  {
    assert ability !in POLICY_METHODS;
  }
}

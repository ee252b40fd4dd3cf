/** The authorization rules for user accounts: each ability is one
    permission, except that everyone may view their own profile. */
module UserPolicy {
  import opened Domain
  import opened HasRoles

  predicate ViewAny(g: Graph, user: User) {
    HasPermission(g, user, USERS_VIEW_ANY)
  }

  predicate View(g: Graph, user: User, model: UserId) {
    if user.userId == model then true
    else HasPermission(g, user, USERS_VIEW_ANY)
  }

  predicate Create(g: Graph, user: User) {
    HasPermission(g, user, USERS_CREATE)
  }

  predicate Update(g: Graph, user: User, model: UserId) {
    HasPermission(g, user, USERS_UPDATE)
  }

  predicate Delete(g: Graph, user: User, model: UserId) {
    HasPermission(g, user, USERS_DELETE)
  }

  /** Viewing a profile: one's own always, anyone else's with `users.view_any`. */
  lemma ViewMeans(g: Graph, user: User, model: UserId)
    ensures View(g, user, model) <==> user.userId == model || HasPermission(g, user, USERS_VIEW_ANY)
  {
  }
}

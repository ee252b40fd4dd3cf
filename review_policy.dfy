/** The authorization rules for reviews. Creating a review needs the
    `reviews.create` permission AND a tie to the project (advisor or team);
    unlike viewing, `projects.view_all` is no substitute for the tie.
    Editing is for the author only; deleting is for the author or a holder
    of `reviews.delete_any`; seeing the reviewer's name is for the author or
    a holder of `reviews.view_names`. */
module ReviewPolicy {
  import opened Domain
  import opened HasRoles
  import ProjectPolicy

  predicate Create(g: Graph, user: User, rel: Relations, p: ProjectId) {
    if !HasPermission(g, user, REVIEWS_CREATE) then false
    else if IsAdvisor(rel, user.userId, p) then true
    else TeamAccess(rel, user.userId, p)
  }

  predicate Update(g: Graph, user: User, review: Review) {
    HasPermission(g, user, REVIEWS_UPDATE_OWN) && user.userId == review.reviewerId
  }

  predicate Delete(g: Graph, user: User, review: Review) {
    if HasPermission(g, user, REVIEWS_DELETE_ANY) then true
    else HasPermission(g, user, REVIEWS_DELETE_OWN) && user.userId == review.reviewerId
  }

  predicate ViewName(g: Graph, user: User, review: Review) {
    if HasPermission(g, user, REVIEWS_VIEW_NAMES) then true
    else if user.userId == review.reviewerId then true
    else false
  }

  /** Whoever may review a project may also view it. */
  lemma CreateImpliesView(g: Graph, user: User, rel: Relations, p: ProjectId)
    requires Create(g, user, rel, p)
    ensures ProjectPolicy.View(g, user, rel, p)
  {
  }

  /** Creating a review is exactly the permission plus a tie to the project. */
  lemma CreateMeans(g: Graph, user: User, rel: Relations, p: ProjectId)
    requires Consistent(g, user)
    ensures Create(g, user, rel, p) <==>
            REVIEWS_CREATE in EffectivePermissions(g, user.userId)
            && (IsAdvisor(rel, user.userId, p) || TeamAccess(rel, user.userId, p))
  {
    HasPermissionAgrees(g, user, REVIEWS_CREATE);
  }

  /** `projects.view_all` opens every project for viewing but is no tie:
      a holder with no advisor row for the project and no team on it may
      view it and may not review it, whatever else the roles grant. */
  lemma ViewAllDoesNotGrantCreate(g: Graph, user: User, rel: Relations, p: ProjectId)
    requires Consistent(g, user)
    requires PROJECTS_VIEW_ALL in EffectivePermissions(g, user.userId)
    requires (p, user.userId) !in rel.projectAdvisors && !InAssignedTeam(rel, user.userId, p)
    ensures ProjectPolicy.View(g, user, rel, p) && !Create(g, user, rel, p)
  {
    HasPermissionAgrees(g, user, PROJECTS_VIEW_ALL);
  }

  /** Deleting: any review with `reviews.delete_any`, one's own with
      `reviews.delete_own`. */
  lemma DeleteMeans(g: Graph, user: User, review: Review)
    ensures Delete(g, user, review) <==>
            HasPermission(g, user, REVIEWS_DELETE_ANY)
            || (HasPermission(g, user, REVIEWS_DELETE_OWN) && user.userId == review.reviewerId)
  {
  }

  /** Another user's review is deleted only with `reviews.delete_any`. */
  lemma DeleteOthersNeedsDeleteAny(g: Graph, user: User, review: Review)
    requires user.userId != review.reviewerId
    ensures Delete(g, user, review) == HasPermission(g, user, REVIEWS_DELETE_ANY)
  {
  }

  /** Editing is never granted on someone else's review, whatever the permissions. */
  lemma UpdateOnlyOwn(g: Graph, user: User, review: Review)
    requires Update(g, user, review)
    ensures user.userId == review.reviewerId
  {
  }

  /** The author always sees their own name; others need `reviews.view_names`. */
  lemma ViewNameMeans(g: Graph, user: User, review: Review)
    ensures ViewName(g, user, review) <==>
            user.userId == review.reviewerId || HasPermission(g, user, REVIEWS_VIEW_NAMES)
  {
  }
}

/** The review record sent to clients: the reviewer's identity is shown to
    the author and to holders of `reviews.view_names`, and replaced by a
    fixed anonymous record for everybody else. */
module ReviewResource {
  import opened Domain
  import opened HasRoles
  import UserModel
  import ReviewPolicy

  datatype ReviewerJson = ReviewerJson(id: Option<UserId>, name: string, role: string)

  /** The fields of the record other than the two timestamps. */
  datatype ReviewJson = ReviewJson(
    id: ReviewId,
    rating: int,
    content: string,
    reviewer: ReviewerJson,
    projectId: ProjectId,
    projectName: Option<string>,
    isMine: bool)

  /** Rendering a visible reviewer whose row is soft-deleted reads a property
      of null, which the framework turns into a server error. */
  datatype RenderError = MissingReviewer

  const ANONYMOUS: ReviewerJson := ReviewerJson(None, "Anonymous Team Member", "Hidden")
  /** The role shown for a reviewer without any role. */
  const NO_ROLE: string := "Staff"

  predicate CanSeeName(g: Graph, user: User, review: Review) {
    HasPermission(g, user, REVIEWS_VIEW_NAMES) || user.userId == review.reviewerId
  }

  /** `toArray`. `reviewerRoles` are the names of the reviewer's roles in
      the order the lazily loaded relation returns them; `projectName` is the
      project's name when that relation was loaded. */
  function ToArray(g: Graph, user: User, review: Review, users: map<UserId, UserRow>,
                   reviewerRoles: seq<string>, projectName: Option<string>): (r: Result<ReviewJson, RenderError>)
    ensures r.Failure? <==> CanSeeName(g, user, review) && !LiveUser(users, review.reviewerId)
    ensures r.Success? ==>
              && r.value.id == review.reviewId && r.value.rating == review.rating && r.value.content == review.content
              && r.value.projectId == review.projectId && r.value.projectName == projectName
              && (r.value.isMine <==> user.userId == review.reviewerId)
              && (r.value.reviewer.id.Some? <==> CanSeeName(g, user, review))
              && (!CanSeeName(g, user, review) ==> r.value.reviewer == ANONYMOUS)
  {
    var reviewer :=
      if !CanSeeName(g, user, review) then Success(ANONYMOUS)
      else if !LiveUser(users, review.reviewerId) then Failure(MissingReviewer)
      else
        var row := users[review.reviewerId];
        Success(ReviewerJson(Some(review.reviewerId), UserModel.FullName(row.firstName, row.lastName),
                             if reviewerRoles == [] then NO_ROLE else reviewerRoles[0]));
    if reviewer.Failure? then Failure(MissingReviewer)
    else Success(ReviewJson(review.reviewId, review.rating, review.content, reviewer.value,
                            review.projectId, projectName, user.userId == review.reviewerId))
  }

  /** The resource's gate is the review policy's `viewName`. */
  lemma CanSeeNameIsPolicy(g: Graph, user: User, review: Review)
    ensures CanSeeName(g, user, review) == ReviewPolicy.ViewName(g, user, review)
  {
  }

  /** A visible reviewer is the real one: the row's id, its full name and the
      first of its roles, or `Staff` when it has none; when the loaded roles
      are the reviewer's roles in the stored graph, that is a role the
      reviewer holds. */
  lemma VisibleReviewerIsReal(g: Graph, user: User, review: Review, users: map<UserId, UserRow>,
                              reviewerRoles: seq<string>, projectName: Option<string>)
    requires CanSeeName(g, user, review) && LiveUser(users, review.reviewerId)
    requires forall n :: n in reviewerRoles <==> n in RoleNames(g, review.reviewerId)
    ensures var r := ToArray(g, user, review, users, reviewerRoles, projectName);
            var row := users[review.reviewerId];
            && r.Success?
            && r.value.reviewer.id == Some(review.reviewerId)
            && r.value.reviewer.name == row.firstName + " " + row.lastName
            && (RoleNames(g, review.reviewerId) == {} ==> r.value.reviewer.role == NO_ROLE)
            && (RoleNames(g, review.reviewerId) != {} ==> r.value.reviewer.role in RoleNames(g, review.reviewerId))
  {
    if reviewerRoles != [] {
      assert reviewerRoles[0] in reviewerRoles;
    }
  }

  /** Masking hides everything about the reviewer: two reviews that differ
      in their reviewer only, neither of them visible to the requester, yield
      the same record whatever the reviewers' rows and roles are. */
  lemma MaskingHidesReviewer(g: Graph, user: User, review: Review, otherReviewer: UserId,
                             users: map<UserId, UserRow>, otherUsers: map<UserId, UserRow>,
                             roles: seq<string>, otherRoles: seq<string>, projectName: Option<string>)
    requires !CanSeeName(g, user, review) && !CanSeeName(g, user, review.(reviewerId := otherReviewer))
    ensures ToArray(g, user, review, users, roles, projectName)
            == ToArray(g, user, review.(reviewerId := otherReviewer), otherUsers, otherRoles, projectName)
  {
  }

  /** A holder of `reviews.view_names` sees every present reviewer by name,
      and the author always sees their own review as theirs and named. */
  lemma WhoSeesNames(g: Graph, user: User, review: Review, users: map<UserId, UserRow>,
                     reviewerRoles: seq<string>, projectName: Option<string>)
    requires LiveUser(users, review.reviewerId)
    requires HasPermission(g, user, REVIEWS_VIEW_NAMES) || user.userId == review.reviewerId
    ensures var r := ToArray(g, user, review, users, reviewerRoles, projectName);
            r.Success? && r.value.reviewer != ANONYMOUS
            && r.value.reviewer.name == users[review.reviewerId].firstName + " " + users[review.reviewerId].lastName
            && (user.userId == review.reviewerId ==> r.value.isMine)
  {
  }
}

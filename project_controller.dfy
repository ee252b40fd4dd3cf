/** The project endpoints. `index` and `show` decide what a user sees;
    `store`, `update` and `destroy` change project rows behind their form
    requests and the project policy. Route binding finds only live
    projects, so a soft-deleted one is a 404 for everybody. */
module ProjectController {
  import opened Domain
  import opened HasRoles
  import opened Schema
  import ProjectPolicy
  import AppServiceProvider

  datatype ProjectError = NotFound | Forbidden | ValidationFailed

  /** The statuses the store and update requests accept. */
  const STORE_STATUSES: seq<string> := ["active", "hold", "completed"]
  const UPDATE_STATUSES: seq<string> := ["active", "hold", "completed", "archived"]
  const DEFAULT_STATUS: string := "active"
  const MAX_NAME: nat := 150

  // ------------------------------------------------------------------
  // Reading

  /** `index`, as a set: the listing order and the pages are not modelled. */
  function Index(g: Graph, user: User, rel: Relations): (r: set<ProjectId>)
    ensures r <= rel.projects
  {
    if AppServiceProvider.Allows(g, user, rel, PROJECTS_VIEW_ALL, AppServiceProvider.NoTarget) then rel.projects
    else set p | p in rel.projects && (InAssignedTeam(rel, user.userId, p) || (p, user.userId) in rel.projectAdvisors)
  }

  /** The listing is exactly the live projects the `view` policy allows. */
  lemma IndexIsView(g: Graph, user: User, rel: Relations, p: ProjectId)
    ensures p in Index(g, user, rel) <==> p in rel.projects && ProjectPolicy.View(g, user, rel, p)
  {
    AppServiceProvider.DottedAbilityIsPermission(g, user, rel, PROJECTS_VIEW_ALL, AppServiceProvider.NoTarget);
  }

  /** With `projects.view_all` every live project is listed. */
  lemma IndexForViewAll(g: Graph, user: User, rel: Relations)
    requires HasPermission(g, user, PROJECTS_VIEW_ALL)
    ensures Index(g, user, rel) == rel.projects
  {
    AppServiceProvider.DottedAbilityIsPermission(g, user, rel, PROJECTS_VIEW_ALL, AppServiceProvider.NoTarget);
  }

  /** Without the permission, a user with no team on and no advisor row for
      any project gets an empty list, and an advisor gets the advised one. */
  lemma IndexWithoutBypass(g: Graph, user: User, rel: Relations, p: ProjectId)
    requires !HasPermission(g, user, PROJECTS_VIEW_ALL)
    ensures (forall q :: !InAssignedTeam(rel, user.userId, q) && (q, user.userId) !in rel.projectAdvisors)
              ==> Index(g, user, rel) == {}
    ensures IsAdvisor(rel, user.userId, p) ==> p in Index(g, user, rel)
  {
    AppServiceProvider.DottedAbilityIsPermission(g, user, rel, PROJECTS_VIEW_ALL, AppServiceProvider.NoTarget);
  }

  /** `show`: the route binding, then `Gate::authorize('view', $project)`. */
  function Show(g: Graph, user: User, rel: Relations, p: ProjectId): (r: Result<ProjectId, ProjectError>)
    ensures p !in rel.projects ==> r == Failure(NotFound)
    ensures p in rel.projects ==>
              (ProjectPolicy.View(g, user, rel, p) ==> r == Success(p))
              && (!ProjectPolicy.View(g, user, rel, p) ==> r == Failure(Forbidden))
  {
    if p !in rel.projects then Failure(NotFound)
    else if !AppServiceProvider.Allows(g, user, rel, "view", AppServiceProvider.ProjectOf(p)) then Failure(Forbidden)
    else Success(p)
  }

  /** A project opens exactly when it is listed. */
  lemma ShowAgreesWithIndex(g: Graph, user: User, rel: Relations, p: ProjectId)
    ensures Show(g, user, rel, p).Success? <==> p in Index(g, user, rel)
  {
    IndexIsView(g, user, rel, p);
  }

  // ------------------------------------------------------------------
  // Writing

  /** What the store request passes on; `None` is an absent or null field. */
  datatype NewProject = NewProject(name: Option<string>, description: Option<string>, status: Option<string>)

  /** What the update request carries. Each field is None when its key is
      absent and Some(None) when it is sent as null or blank. `name` and
      `status` are under `sometimes` rules, so a null there is refused;
      `description` is `nullable`, so a null there clears it. */
  datatype ProjectChanges = ProjectChanges(name: Option<Option<string>>, description: Option<Option<string>>, status: Option<Option<string>>)

  /** No project row, soft-deleted ones included, other than `except` has the name. */
  predicate NameFree(rows: map<ProjectId, ProjectRow>, name: string, except: Option<ProjectId>) {
    forall q :: q in rows && Some(q) != except ==> rows[q].name != name
  }

  function ApplyChanges(row: ProjectRow, c: ProjectChanges): (r: ProjectRow)
    ensures c.name.None? ==> r.name == row.name
    ensures c.name.Some? && c.name.value.Some? ==> r.name == c.name.value.value
    ensures r.description == c.description.GetOr(row.description)
    ensures c.status.None? ==> r.status == row.status
    ensures c.status.Some? && c.status.value.Some? ==> r.status == c.status.value.value
    ensures r.createdBy == row.createdBy
  {
    ProjectRow(SentOr(c.name, row.name), c.description.GetOr(row.description), SentOr(c.status, row.status), row.createdBy)
  }

  /** `store`: the request's `projects.create` check, its rules (a name of at
      most 150 characters that no row carries, a known status or none), then
      the insert with status `active` when none is given and the requester
      as creator. */
  method Store(db: Database, requester: User, input: NewProject) returns (r: Result<ProjectId, ProjectError>)
    requires db.Valid()
    modifies db`projectRows, db`nextProjectId
    ensures db.Valid()
    ensures !HasPermission(old(db.Graph()), requester, PROJECTS_CREATE) ==> r == Failure(Forbidden) && unchanged(db)
    ensures HasPermission(old(db.Graph()), requester, PROJECTS_CREATE) ==>
              && (r == Failure(ValidationFailed) <==>
                    !(input.name.Some? && |input.name.value| <= MAX_NAME && NameFree(old(db.projectRows), input.name.value, None)
                      && (input.status.None? || input.status.value in STORE_STATUSES)))
              && (r.Failure? ==> r == Failure(ValidationFailed) && unchanged(db))
              && (r.Success? ==>
                    && r.value == old(db.nextProjectId) && r.value !in old(db.projectRows)
                    && db.projectRows == old(db.projectRows)[r.value := ProjectRow(input.name.value, input.description,
                                                                               input.status.GetOr(DEFAULT_STATUS), Some(requester.userId))]
                    && db.nextProjectId == r.value + 1)
  {
    AppServiceProvider.DottedAbilityIsPermission(db.Graph(), requester, db.Relations(), PROJECTS_CREATE, AppServiceProvider.NoTarget);
    if !AppServiceProvider.Allows(db.Graph(), requester, db.Relations(), PROJECTS_CREATE, AppServiceProvider.NoTarget) {
      return Failure(Forbidden);
    }
    if !(input.name.Some? && |input.name.value| <= MAX_NAME && NameFree(db.projectRows, input.name.value, None)
         && (input.status.None? || input.status.value in STORE_STATUSES)) {
      return Failure(ValidationFailed);
    }
    var id := db.nextProjectId;
    db.projectRows := db.projectRows[id := ProjectRow(input.name.value, input.description,
                                                      input.status.GetOr(DEFAULT_STATUS), Some(requester.userId))];
    db.nextProjectId := id + 1;
    r := Success(id);
  }

  /** The update request's own check and the policy's `update` are the same
      permission, so the controller's second check never refuses. */
  lemma UpdateChecksAgree(g: Graph, user: User, rel: Relations, p: ProjectId)
    ensures AppServiceProvider.Allows(g, user, rel, "update", AppServiceProvider.ProjectOf(p))
            == AppServiceProvider.Allows(g, user, rel, PROJECTS_UPDATE, AppServiceProvider.NoTarget)
            == HasPermission(g, user, PROJECTS_UPDATE)
  {
    AppServiceProvider.DottedAbilityIsPermission(g, user, rel, PROJECTS_UPDATE, AppServiceProvider.NoTarget);
  }

  /** `update`: the route binding, the request's `projects.update` check, its
      rules (a name sent is not null, has at most 150 characters and no
      other row carries it; a status sent is a known one), then the field
      update. */
  method Update(db: Database, requester: User, p: ProjectId, c: ProjectChanges) returns (r: Result<ProjectId, ProjectError>)
    requires db.Valid()
    modifies db`projectRows
    ensures db.Valid()
    ensures p !in old(db.Relations().projects) ==> r == Failure(NotFound) && unchanged(db)
    ensures p in old(db.Relations().projects) && !HasPermission(old(db.Graph()), requester, PROJECTS_UPDATE) ==>
              r == Failure(Forbidden) && unchanged(db)
    ensures p in old(db.Relations().projects) && HasPermission(old(db.Graph()), requester, PROJECTS_UPDATE) ==>
              && (r == Success(p) <==>
                    (c.name.Some? ==> c.name.value.Some? && |c.name.value.value| <= MAX_NAME
                                       && NameFree(old(db.projectRows), c.name.value.value, Some(p)))
                    && (c.status.Some? ==> c.status.value.Some? && c.status.value.value in UPDATE_STATUSES))
              && (r.Failure? ==> r == Failure(ValidationFailed) && unchanged(db))
              && (r.Success? ==> db.projectRows == old(db.projectRows)[p := ApplyChanges(old(db.projectRows)[p], c)])
  {
    if p !in db.Relations().projects {
      return Failure(NotFound);
    }
    UpdateChecksAgree(db.Graph(), requester, db.Relations(), p);
    if !AppServiceProvider.Allows(db.Graph(), requester, db.Relations(), PROJECTS_UPDATE, AppServiceProvider.NoTarget) {
      return Failure(Forbidden);
    }
    if !((c.name.Some? ==> c.name.value.Some? && |c.name.value.value| <= MAX_NAME
                           && NameFree(db.projectRows, c.name.value.value, Some(p)))
         && (c.status.Some? ==> c.status.value.Some? && c.status.value.value in UPDATE_STATUSES)) {
      return Failure(ValidationFailed);
    }
    db.projectRows := db.projectRows[p := ApplyChanges(db.projectRows[p], c)];
    r := Success(p);
  }

  /** `destroy`: the route binding, the policy's `delete`, then the soft
      delete; the pivots stay, but the project drops out of every view. */
  method Destroy(db: Database, requester: User, p: ProjectId) returns (r: Result<ProjectId, ProjectError>)
    requires db.Valid()
    modifies db`deletedProjects
    ensures db.Valid()
    ensures r.Success? <==> p in old(db.Relations().projects) && HasPermission(db.Graph(), requester, PROJECTS_DELETE)
    ensures p !in old(db.Relations().projects) ==> r == Failure(NotFound)
    ensures p in old(db.Relations().projects) && !HasPermission(db.Graph(), requester, PROJECTS_DELETE) ==> r == Failure(Forbidden)
    ensures r.Failure? ==> unchanged(db)
    ensures r.Success? ==> r.value == p && db.deletedProjects == old(db.deletedProjects) + {p}
                           && db.Relations().projects == old(db.Relations().projects) - {p}
  {
    if p !in db.Relations().projects {
      return Failure(NotFound);
    }
    if !AppServiceProvider.Allows(db.Graph(), requester, db.Relations(), "delete", AppServiceProvider.ProjectOf(p)) {
      return Failure(Forbidden);
    }
    db.deletedProjects := db.deletedProjects + {p};
    r := Success(p);
  }

  /** Once soft-deleted by `destroy`, a project is neither listed nor
      opened, even for a holder of `projects.view_all`, while every other
      project is seen as before. The status "archived" hides nothing. */
  lemma DestroyedProjectIsHidden(g: Graph, user: User, rel: Relations, p: ProjectId, q: ProjectId)
    requires q != p
    ensures var after := rel.(projects := rel.projects - {p});
            && p !in Index(g, user, after) && Show(g, user, after, p) == Failure(NotFound)
            && (q in Index(g, user, after) <==> q in Index(g, user, rel))
  {
    var after := rel.(projects := rel.projects - {p});
    IndexIsView(g, user, after, q);
    IndexIsView(g, user, rel, q);
  }
}

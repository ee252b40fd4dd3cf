# Access control and credentials of the project-manager backend, in Dafny

This project models the authorization and credential core of a Laravel
project-management API. It covers four parts:

- **The permission graph.** Users hold roles, and roles grant dotted
  permissions such as `projects.view_all`.
  - `HasRoles` answers role and permission questions in every loading state.
  - The gate's before-hook decides dotted abilities by permission alone.
  - The four policies (project, review, user, team) decide per-object abilities.
  - The two seeders build the catalogue and the Executive / Manager / Associate matrix.
- **Per-project visibility.** A project is seen through `projects.view_all`,
  an advisor row or a team assignment. The project listing, the project
  endpoints, review creation and the masking of reviewer names in the review
  record all follow from this rule.
- **The credential lifecycle.**
  - Refresh tokens are stored hashed, with unique hashes.
  - A token is valid until it is revoked or expires.
  - Rotation is single-use.
  - Logout and account deletion revoke every token of a user.
  - The prune command deletes tokens whose expiry is strictly in the past.
  - The JWT middleware, the role middleware and the login, register, refresh
    and logout endpoints are decision chains over these facts.
- **The relationship mutations that feed the policies.** These are team sync
  and advisor assignment on projects, roster changes on teams, and the admin
  user endpoints.

The database is one class, `Schema.Database`, with one field per table or
pivot table. Its invariant `Valid` holds:

- the unique indexes: role names, permission names, emails and token hashes;
- the foreign keys;
- ids below the next id each table hands out.

Every state-changing method names the fields it may change in a field
frame (`modifies db`refreshTokens`). "Nothing else changes" therefore comes
with the frame itself.

Foreign calls are parameters of the model:

- `sha256`, JWT decoding, `password_verify`, the random secret and the clock;
- the password hash of a new account.

A soft-deleted user or project is hidden from model lookups, route binding
and relations. It is not hidden from the `exists:` and `unique:` validation
rules, which the model applies to every row.

Four behaviours of the code are easy to misread; the model follows the code:

- **Soft-deleted user.** The middleware's lookup
  (`app/Http/Middleware/JwtMiddleware.php:38-44`) goes through the
  soft-delete scope, so a soft-deleted user gets 401 "User not found". The
  403 "Account Suspended" (lines 46-51) is only for a live user whose
  `is_active` is false.
- **Deactivating an account.** The admin `update`
  (`app/Http/Controllers/Admin/UserController.php:134`) writes the fields
  and revokes no refresh token when `is_active` becomes false.
  `DeactivationKeepsTokens` shows the consequence at the service: a valid
  refresh token of a deactivated user still rotates. Over HTTP the
  `refresh` route lies inside the `jwt.auth` group
  (`routes/api.php:32-36`), so the request also needs an access token that
  the middleware accepts; a deactivated user's own access token gets 403,
  but the refresh token is still rotated if any other live, active
  account's access token carries the request, since `refresh` never
  compares the token's owner with the requester.
- **Missing `refresh_token`.** `refresh` passes the input to
  `rotateToken(string $rawRefreshToken)` (`app/Services/AuthService.php:49`).
  A null input raises a TypeError, which is not an `Exception`, so the
  `catch` at `app/Http/Controllers/AuthController.php:178` does not take it
  and the answer is 500, not 401.
- **Soft-deleted token owner.** `rotateToken` hands `$storedToken->user` to
  `generateTokens(User $user)` (`app/Services/AuthService.php:61`). For a
  soft-deleted owner the relation is null, so this is a TypeError as well,
  and the answer is 500. The old record has already been revoked.

## Model

| member | source | states |
|---|---|---|
| Domain.EffectivePermissionsMeans | app/Traits/HasRoles.php:69-73 | a name is an effective permission of a user iff some role the user holds grants a permission of that name |
| Domain.SyncPivot | app/Services/AssignmentService.php:16-21 | after `sync(ids)` the owner's rows are exactly the listed ids, and every other owner's rows are what they were |
| Domain.SyncPivotIdempotent | app/Services/AssignmentService.php:16-21 | syncing the same list twice is syncing it once |
| HasRoles.HasRoleAgrees | app/Traits/HasRoles.php:16-23 | with the loaded relation consistent with the database, `hasRole` is true iff a role the user holds has that name; the loaded and query branches give the same answer |
| HasRoles.HasAnyRoleOfOneName | app/Traits/HasRoles.php:32-36 | `hasAnyRole` of a string equals `hasAnyRole` of the one-element list, and equals `hasRole` |
| HasRoles.HasAnyRoleAgrees | app/Traits/HasRoles.php:38-42 | `hasAnyRole` is true iff some held role's name is in the list, in both branches |
| HasRoles.HasAnyRoleOfNoNames | app/Traits/HasRoles.php:38-42 | an empty list of roles is never satisfied |
| HasRoles.SomeLoadedRoleGrantsMeans | app/Traits/HasRoles.php:53-66 | the loop over the loaded roles answers true iff some role in the list grants the name |
| HasRoles.SomeLoadedRoleGrantsStopsEarly | app/Traits/HasRoles.php:54-58 | once a prefix of the roles grants the name, the roles after it cannot change the answer |
| HasRoles.RoleGrantsAgrees | app/Traits/HasRoles.php:55-63 | a role's loaded permission list and its permission query agree with the stored pivot |
| HasRoles.HasPermissionAgrees | app/Traits/HasRoles.php:51-74 | `hasPermission` is true iff the name is among the user's effective permissions, whatever was loaded |
| HasRoles.HasPermissionBranchesAgree | app/Traits/HasRoles.php:53-73 | the eager branch over roles consistent with the database and the query branch give the same answer |
| HasRoles.HasPermissionViaTwoRoles | tests/Unit/Traits/HasRolesTest.php:70-86 | a permission granted by two roles of the user is granted |
| HasRoles.UnknownPermissionDenied | tests/Unit/Traits/HasRolesTest.php:19-35 | a name no stored permission carries is never granted |
| UserModel.FullName | app/Models/User.php:75-80 | the full name is the first name, one space, then the last name |
| UserModel.Enumerate | app/Models/User.php:136-141 | a lazily loaded relation lists each related row exactly once, in an unspecified order |
| UserModel.UniqueByName | app/Models/User.php:140 | `unique('permission_name')` keeps only input elements whose names were not seen before, and no two kept elements share a name |
| UserModel.UniqueByNameNames | app/Models/User.php:140 | a name survives `unique` iff it occurs in the input and was not already seen |
| UserModel.FlatMapNames | app/Models/User.php:138-139 | the flattened list carries a name iff some role's permission collection does |
| UserModel.PermissionsAreEffective | app/Models/User.php:136-141 | `permissions()` names exactly the union of the permissions of the user's roles |
| UserModel.PermissionsAgreeWithHasPermission | app/Models/User.php:136-141 | a name is in `permissions()` iff `hasPermission` holds for it |
| UserModel.PermissionsAreDistinct | app/Models/User.php:140 | no permission name occurs twice in `permissions()` |
| UserModel.HasAccessToProjectMeans | app/Models/User.php:147-162 | access holds iff the user has the role named Executive (the role name, not `projects.view_all`), or advises the project, or is in a team assigned to it |
| AppServiceProvider.Before | app/Providers/AppServiceProvider.php:38-43 | the hook never answers false; it answers true iff the ability contains a dot and the user has that permission; otherwise it defers |
| AppServiceProvider.DottedAbilityIsPermission | app/Providers/AppServiceProvider.php:38-43 | a dotted ability is allowed iff the user holds that permission, whatever the target |
| AppServiceProvider.PlainAbilityIsPolicy | app/Providers/AppServiceProvider.php:42 | an ability without a dot is decided by the policy method alone |
| AppServiceProvider.DispatchReachesPolicies | app/Providers/AppServiceProvider.php:33-36 | project, review, user and team abilities reach their own policy class |
| AppServiceProvider.UnknownAbilityDenied | app/Providers/AppServiceProvider.php:33-43 | every ability without a dot or a dash whose lower-case form is no policy method's lower-case name is denied, on every target |
| ProjectPolicy.PermissionAbilitiesIgnoreTheProject | app/Policies/ProjectPolicy.php:61-90 | update, delete, assignTeams and assignAdvisors are each their one permission, for every project alike |
| ProjectPolicy.ViewMeans | app/Policies/ProjectPolicy.php:25-48 | `view` holds iff the user has `projects.view_all`, advises the live project, or is in a team assigned to it |
| ProjectPolicy.ViewMonotone | app/Policies/ProjectPolicy.php:25-48 | adding projects, memberships, team links or advisor rows never turns an allowed view into a denied one |
| ProjectPolicy.ViewOfDeletedProject | app/Policies/ProjectPolicy.php:25-48 | a soft-deleted project is viewed only through `projects.view_all` |
| ProjectPolicy.ViewIsPerProject | app/Policies/ProjectPolicy.php:36-47 | without the bypass, advising one project grants no view of another project the user has no tie to |
| ReviewPolicy.CreateImpliesView | app/Policies/ReviewPolicy.php:15-32 | whoever may review a project may view it |
| ReviewPolicy.CreateMeans | app/Policies/ReviewPolicy.php:15-32 | `create` holds iff the user has `reviews.create` and advises the project or is in a team assigned to it |
| ReviewPolicy.ViewAllDoesNotGrantCreate | app/Policies/ReviewPolicy.php:15-32 | for every user, project and graph: a holder of `projects.view_all` with no advisor row for the project and no team on it may view it and may not review it, whatever else their roles grant |
| ReviewPolicy.DeleteMeans | app/Policies/ReviewPolicy.php:46-54 | `delete` holds iff the user has `reviews.delete_any`, or has `reviews.delete_own` and wrote the review |
| ReviewPolicy.DeleteOthersNeedsDeleteAny | app/Policies/ReviewPolicy.php:46-54 | someone else's review is deleted exactly with `reviews.delete_any` |
| ReviewPolicy.UpdateOnlyOwn | app/Policies/ReviewPolicy.php:37-41 | `update` is only ever granted to the review's author |
| ReviewPolicy.ViewNameMeans | app/Policies/ReviewPolicy.php:60-71 | `viewName` holds iff the user wrote the review or has `reviews.view_names` |
| UserPolicy.ViewMeans | app/Policies/UserPolicy.php:20-27 | a profile is viewed by its owner always, by anyone else iff they have `users.view_any` |
| TeamModel.MembersAreLive | app/Models/Team.php:24-28 | a team's members are exactly the live users with a membership row |
| TeamModel.RosterByRole | app/Models/Team.php:44-59 | a user is in the team's managers (associates) iff they are a member currently holding the Manager (Associate) role; both views are subsets of the members |
| TeamModel.BothOrNeither | app/Models/Team.php:44-59 | a member holding both roles is in both views; a member holding neither is in neither |
| TeamModel.RostersFollowRoles | app/Models/Team.php:44-59 | the views are computed from the current roles: members with the same roles in two graphs give the same views |
| RefreshTokenModel.Revoke | app/Models/RefreshToken.php:68-72 | revoking sets `is_revoked`, changes no other field, and leaves the record invalid at every instant |
| RefreshTokenModel.InvalidAtExpiry | app/Models/RefreshToken.php:60-63 | a record expiring exactly now is not valid |
| RefreshTokenModel.RevokeIdempotent | app/Models/RefreshToken.php:68-72 | revoking twice is revoking once |
| RefreshTokenModel.FindByHash | app/Services/AuthService.php:53 | the lookup returns the first record with the hash, or nothing when no record has it |
| RefreshTokenModel.FindByHashUnique | database/migrations/2025_12_01_000001_create_refresh_tokens_table.php:18 | with unique hashes, the lookup by a record's hash finds that record |
| RefreshTokenModel.NewRecord | app/Services/AuthService.php:31-36 | a new record belongs to the user, holds the hash, is not revoked, and expires `ttl` after `now` |
| RefreshTokenModel.RevokeAllOf | app/Services/AuthService.php:67-70 | the bulk update revokes every record of the user and leaves every other record as it was |
| RefreshTokenModel.Unexpired | app/Console/Commands/PruneExpiredTokens.php:28 | a record survives the prune iff `now <= expires_at`; the number removed is the number expired strictly before `now` |
| RefreshTokenModel.RevokeAtKeepsUnique | database/migrations/2025_12_01_000001_create_refresh_tokens_table.php:18 | revoking one record keeps the hashes unique |
| RefreshTokenModel.AppendKeepsUnique | database/migrations/2025_12_01_000001_create_refresh_tokens_table.php:18 | inserting a record with a new hash keeps the hashes unique |
| RefreshTokenModel.RevokeAllOfKeepsUnique | database/migrations/2025_12_01_000001_create_refresh_tokens_table.php:18 | the bulk revocation keeps the hashes unique |
| RefreshTokenModel.UnexpiredKeepsUnique | database/migrations/2025_12_01_000001_create_refresh_tokens_table.php:18 | pruning keeps the hashes unique |
| RefreshTokenModel.RevokedIsRejected | app/Services/AuthService.php:55-59 | once its record is revoked, a secret is refused at every instant |
| RefreshTokenModel.AppendKeepsRejected | app/Services/AuthService.php:31-36 | inserting a record with another hash does not revive a refused secret |
| RefreshTokenModel.RevokeAllOfRejects | app/Services/AuthService.php:53-70 | after logging out everywhere, every earlier secret of the user is refused |
| RefreshTokenModel.RevokeAllOfIdempotent | app/Services/AuthService.php:67-70 | logging out everywhere twice is doing it once |
| RefreshTokenModel.PruneIdempotent | app/Console/Commands/PruneExpiredTokens.php:28 | a second prune at the same instant removes nothing |
| RefreshTokenModel.PruneKeepsBoundary | app/Console/Commands/PruneExpiredTokens.php:28 | a record expiring exactly now, or revoked but unexpired, survives the prune, though one expiring now is already invalid |
| Schema.RoleByNameIs | database/migrations/0001_01_01_000001_create_permissions_table.php:21 | with unique role names, looking a role up by name finds that role |
| AuthService.Issued | app/Services/AuthService.php:19-43 | the claims carry the app URL, the user id, the user's role names, `iat = now` and `exp = iat + 3600`; the pair reports 3600 seconds, type Bearer, and the raw secret |
| AuthService.AuthService.GenerateTokens | app/Services/AuthService.php:17-44 | appends exactly one unrevoked record holding `sha256(raw)` and expiring 7 days after `now`, and returns the issued pair; a hash already stored is a unique-index failure that changes nothing |
| AuthService.AuthService.RotateToken | app/Services/AuthService.php:49-62 | a secret with no record or an invalid record fails with the store unchanged; otherwise its record is revoked, a new pair is issued for its owner, and the old secret is refused from then on |
| AuthService.AuthService.LogoutAllDevices | app/Services/AuthService.php:67-70 | the store becomes the bulk revocation of the user's records |
| AuthService.SecondRotationFails | app/Services/AuthService.php:55-61 | after a rotation, the same secret is refused at every later instant, even before its expiry |
| JwtMiddleware.Decide | app/Http/Middleware/JwtMiddleware.php:23-74 | a missing or falsy bearer token gives 401 "Bearer token missing"; the request is authenticated iff the token decodes to the id of a live, active user |
| JwtMiddleware.DecodeFailuresMap | app/Http/Middleware/JwtMiddleware.php:56-71 | expired gives "Token Expired", bad signature gives "Token Invalid", anything else gives "Unauthorized token", all with status 401 |
| JwtMiddleware.SubjectChecks | app/Http/Middleware/JwtMiddleware.php:38-51 | no live user with the subject id gives 401 "User not found"; an inactive user gives 403 "Account Suspended" even with a good token |
| JwtMiddleware.Handle | app/Http/Middleware/JwtMiddleware.php:23-74 | on success the request's user is the looked-up user and the next handler runs exactly once; on every failure neither happens |
| CheckRole.Handle | app/Http/Middleware/CheckRole.php:17-33 | no user gives 401; a user passes iff they hold a listed role; otherwise 403 with the required roles in the message |
| CheckRole.HandleMeans | app/Http/Middleware/CheckRole.php:25-32 | a user passes iff one of their stored role names is listed; an empty list never passes |
| CheckRole.JoinCons | app/Http/Middleware/CheckRole.php:28 | joining a longer list puts the separator between the first role and the rest |
| AuthController.LiveUserByEmailIs | app/Http/Controllers/AuthController.php:67 | emails are unique, so the lookup by email finds the one live user with that email |
| AuthController.AuthController.Login | app/Http/Controllers/AuthController.php:64-82 | no live user or a wrong password gives 401 "Invalid credentials"; the right password on an inactive account gives 403 "Account is inactive"; either way no token is stored; otherwise exactly one pair is issued |
| AuthController.AuthController.Register | app/Http/Controllers/AuthController.php:123-138 | an unknown email fails validation; an email held only by a soft-deleted row gives 404; otherwise the names and password hash are set and a pair is issued, without checking the active flag |
| AuthController.AuthController.Refresh | app/Http/Controllers/AuthController.php:171-181 | no input gives 500; a refused secret gives 401 with the store unchanged; otherwise the record is revoked and then a soft-deleted owner gives 500, a new hash already stored gives 401, and any other case answers the pair issued to the owner with exactly one new record stored |
| AuthController.AuthController.Logout | app/Http/Controllers/AuthController.php:204-208 | all of the requester's refresh tokens are revoked |
| UserController.ApplyChanges | app/Http/Controllers/Admin/UserController.php:134 | only first name, last name, email and the active flag change, each only when it is sent with a value |
| UserController.Store | app/Http/Controllers/Admin/UserController.php:81-97 | 422 with nothing changed iff some row, soft-deleted or not, has the email or no role has the name; otherwise an active user at the next id holding exactly that one role |
| UserController.Update | app/Http/Controllers/Admin/UserController.php:132-142 | route binding, then `users.update`, then the rules, where a field or `role_name` sent as null, an email another row has, or an unknown role name gives 422 with nothing changed; on success only the four fields change and the roles become exactly the named role, or stay as they were when the key is absent |
| UserController.UpdateRoleMeans | app/Http/Controllers/Admin/UserController.php:136-139 | after the role sync the account holds exactly the named role, and nobody else's roles change |
| UserController.Destroy | app/Http/Controllers/Admin/UserController.php:168-177 | succeeds iff the account is live and the requester has `users.delete`; then the account is soft-deleted and all of its refresh tokens are revoked |
| UserController.DestroyRevokesEveryToken | app/Http/Controllers/Admin/UserController.php:172-174 | after deletion no earlier secret of the account rotates |
| UserController.DeactivationKeepsTokens | app/Http/Controllers/Admin/UserController.php:134 | deactivating an account revokes nothing: a valid refresh token of it is still accepted |
| PruneExpiredTokens.Handle | app/Console/Commands/PruneExpiredTokens.php:24-31 | the table keeps exactly the unexpired records, and the count is the number of records removed |
| AssignmentService.SyncProjectTeams | app/Services/AssignmentService.php:16-21 | the project's teams become exactly the given ids; an unknown team id fails and changes nothing |
| AssignmentService.AssignAdvisor | app/Services/AssignmentService.php:27-36 | an unknown or soft-deleted user is not found, an inactive user is refused, and in both cases the advisors are unchanged; an active user is added and existing advisors are kept |
| AssignmentService.RemoveAdvisor | app/Services/AssignmentService.php:41-44 | only that user stops advising that project |
| AssignmentService.AssignedAdvisorMayView | app/Services/AssignmentService.php:35 | a new advisor of a live project may view it |
| AssignmentService.RemovedAdvisorView | app/Services/AssignmentService.php:41-44 | after removal the user views the project only through the bypass or a team |
| AssignmentService.SyncedTeamsDecideView | app/Services/AssignmentService.php:16-21 | without the bypass or an advisor row, the user views the project after a sync iff one of the user's teams is in the new list |
| TeamController.MayManageMeans | app/Http/Controllers/TeamController.php:138 | the roster guard is exactly `teams.manage_roster` |
| TeamController.AddMember | app/Http/Controllers/TeamController.php:135-152 | the roster changes only with `manageRoster` and a user row that exists, soft-deleted or not; then the pair is added once and other members are kept |
| TeamController.RemoveMember | app/Http/Controllers/TeamController.php:186-195 | with `manageRoster`, only that user leaves the team's roster |
| ReviewResource.ToArray | app/Http/Resources/ReviewResource.php:38-67 | rating, content and project pass through; `is_mine` holds iff the requester wrote the review; the reviewer id is shown iff the name is visible; hidden names give exactly the anonymous record |
| ReviewResource.CanSeeNameIsPolicy | app/Http/Resources/ReviewResource.php:44 | the resource's visibility gate is the review policy's `viewName` |
| ReviewResource.VisibleReviewerIsReal | app/Http/Resources/ReviewResource.php:50-55 | a visible reviewer carries the real id, the full name, and the first role name or "Staff"; that role is one the reviewer holds |
| ReviewResource.MaskingHidesReviewer | app/Http/Resources/ReviewResource.php:50-60 | when the name is hidden the record is the same whoever wrote the review, whatever their row and roles |
| ReviewResource.WhoSeesNames | tests/Feature/Reviews/ReviewAnonymityTest.php:15-33 | a holder of `reviews.view_names`, or the author, sees the reviewer's full name |
| ProjectController.Index | app/Http/Controllers/ProjectController.php:42-64 | the listing contains only live projects |
| ProjectController.IndexIsView | app/Http/Controllers/ProjectController.php:44-61 | a project is listed iff it is live and the `view` policy allows it |
| ProjectController.IndexForViewAll | tests/Feature/Projects/ProjectAccessTest.php:14-23 | with `projects.view_all` every live project is listed |
| ProjectController.IndexWithoutBypass | tests/Feature/Projects/ProjectAccessTest.php:25-47 | without the bypass, no team or advisor tie gives an empty list, and an advisor sees the advised project |
| ProjectController.Show | app/Http/Controllers/ProjectController.php:126-133 | a soft-deleted or unknown project is 404; a live one is returned iff `view` allows it, and is 403 otherwise |
| ProjectController.ShowAgreesWithIndex | app/Http/Controllers/ProjectController.php:42-133 | a project opens exactly when it is listed |
| ProjectController.ApplyChanges | app/Http/Controllers/ProjectController.php:168 | only the validated fields change, an absent one keeps its value, and the creator stays |
| ProjectController.Store | app/Http/Controllers/ProjectController.php:91-101 | without `projects.create`, 403; the rules fail iff the name is missing, longer than 150 or already taken, or the status is unknown; otherwise one row at the next id, with status "active" by default and the requester as creator |
| ProjectController.UpdateChecksAgree | app/Http/Controllers/ProjectController.php:166 | the policy's `update` and the request's `projects.update` check are the same permission |
| ProjectController.Update | app/Http/Controllers/ProjectController.php:164-171 | 404 for a project that is not live, 403 without `projects.update`, 422 with nothing changed iff a name or status is sent as null, a sent name is too long or belongs to another project, or a sent status is unknown; otherwise only the sent fields change, and a null description clears it |
| ProjectController.Destroy | app/Http/Controllers/ProjectController.php:196-203 | succeeds iff the project is live and the requester has `projects.delete`; then the project is soft-deleted and its pivots stay |
| ProjectController.DestroyedProjectIsHidden | app/Http/Controllers/ProjectController.php:196-203 | a project soft-deleted by `destroy` is neither listed nor opened, even with `projects.view_all`, and every other project is listed as before (the status "archived" hides nothing) |
| PermissionSeeder.CatalogueIsWellFormed | database/seeders/PermissionSeeder.php:12-32 | the catalogue has 19 distinct names, each with a dot |
| PermissionSeeder.FirstOrCreate | database/seeders/PermissionSeeder.php:35 | a name already in the table keeps its row unchanged; a missing one gets a row at the next id |
| PermissionSeeder.CreateAll | database/seeders/PermissionSeeder.php:34-36 | every listed name ends up in the table, rows already present keep their id and name, and when every name is already present nothing changes |
| PermissionSeeder.Run | database/seeders/PermissionSeeder.php:10-37 | after a run every catalogue name exists exactly once; other permissions are untouched; a second run changes nothing |
| RolePermissionSeeder.StandardIds | database/seeders/RolePermissionSeeder.php:20-27 | the standard permissions are the stored permissions whose names are among the four standard names |
| RolePermissionSeeder.FindRole | database/seeders/RolePermissionSeeder.php:13-15 | the lookup finds the role with that name, or nothing |
| RolePermissionSeeder.Run | database/seeders/RolePermissionSeeder.php:11-32 | the run succeeds iff all three roles exist; the role-permission pivot ends as the three syncs leave it, with a missing role stopping the run at its first sync |
| RolePermissionSeeder.MatrixMeans | database/seeders/RolePermissionSeeder.php:17-30 | Executive holds exactly every permission, Manager and Associate exactly the standard ones, their earlier rows are gone, and other roles keep theirs |
| RolePermissionSeeder.MatrixIdempotent | database/seeders/RolePermissionSeeder.php:17-30 | running the seeder twice gives the same matrix |
| RolePermissionSeeder.SeededGrants | database/seeders/RolePermissionSeeder.php:17-30 | after both seeders, Executive grants every catalogue name, and Manager and Associate grant exactly the four standard names |
| RolePermissionSeeder.StandardRolesLackPrivileges | database/seeders/RolePermissionSeeder.php:20-25 | neither Manager nor Associate grants `projects.view_all`, `reviews.view_names` or `reviews.delete_any` |
| HasRoles.HasRole | app/Traits/HasRoles.php:16-23 | `hasRole`: the loaded roles when the relation is loaded, else the query; its meaning is `HasRoleAgrees` |
| HasRoles.HasAnyRole | app/Traits/HasRoles.php:32-43 | `hasAnyRole` over a string or a list, loaded or queried; its meaning is `HasAnyRoleAgrees` |
| HasRoles.HasPermission | app/Traits/HasRoles.php:51-74 | `hasPermission` with its three loading states; its meaning is `HasPermissionAgrees` |
| UserModel.Permissions | app/Models/User.php:136-141 | `permissions()`: the roles' permission collections flattened and made unique by name; its meaning is `PermissionsAreEffective` |
| UserModel.HasAccessToProject | app/Models/User.php:147-162 | `hasAccessToProject`: the Executive role, an advisor row or a team tie, in that order; its meaning is `HasAccessToProjectMeans` |
| AppServiceProvider.PolicyDecision | app/Providers/AppServiceProvider.php:33-36 | the policy method registered for the target's class and the ability, or none |
| AppServiceProvider.Allows | app/Providers/AppServiceProvider.php:38-43 | the gate: the hook's answer when it gives one, else the policy's, else denied; its meaning is `DottedAbilityIsPermission` and `PlainAbilityIsPolicy` |
| ProjectPolicy.View | app/Policies/ProjectPolicy.php:25-48 | the three tiers of project viewing; its meaning is `ViewMeans` |
| ProjectPolicy.ViewAny | app/Policies/ProjectPolicy.php:15-20 | every authenticated user may open the list |
| ProjectPolicy.Create | app/Policies/ProjectPolicy.php:53-56 | `projects.create` |
| ProjectPolicy.Update | app/Policies/ProjectPolicy.php:61-64 | `projects.update`, whatever the project |
| ProjectPolicy.Delete | app/Policies/ProjectPolicy.php:69-72 | `projects.delete`, whatever the project |
| ProjectPolicy.AssignTeams | app/Policies/ProjectPolicy.php:78-81 | `projects.assign_teams`, whatever the project |
| ProjectPolicy.AssignAdvisors | app/Policies/ProjectPolicy.php:87-90 | `projects.assign_advisors`, whatever the project |
| ReviewPolicy.Create | app/Policies/ReviewPolicy.php:15-32 | `reviews.create` and a tie to the project; its meaning is `CreateMeans` |
| ReviewPolicy.Update | app/Policies/ReviewPolicy.php:37-41 | `reviews.update_own` on one's own review |
| ReviewPolicy.Delete | app/Policies/ReviewPolicy.php:46-54 | `reviews.delete_any`, or `reviews.delete_own` on one's own review; its meaning is `DeleteMeans` |
| ReviewPolicy.ViewName | app/Policies/ReviewPolicy.php:60-71 | `reviews.view_names` or authorship; its meaning is `ViewNameMeans` |
| TeamPolicy.ViewAny | app/Policies/TeamPolicy.php:13-16 | `teams.view_any` |
| TeamPolicy.View | app/Policies/TeamPolicy.php:21-24 | `teams.view_any`, whatever the team |
| TeamPolicy.Create | app/Policies/TeamPolicy.php:29-32 | `teams.create` |
| TeamPolicy.Update | app/Policies/TeamPolicy.php:37-40 | `teams.update`, whatever the team |
| TeamPolicy.ManageRoster | app/Policies/TeamPolicy.php:45-48 | `teams.manage_roster`, whatever the team |
| UserPolicy.ViewAny | app/Policies/UserPolicy.php:12-15 | `users.view_any` |
| UserPolicy.View | app/Policies/UserPolicy.php:20-27 | one's own profile, or `users.view_any`; its meaning is `ViewMeans` |
| UserPolicy.Create | app/Policies/UserPolicy.php:32-35 | `users.create` |
| UserPolicy.Update | app/Policies/UserPolicy.php:40-43 | `users.update`, whatever the target |
| UserPolicy.Delete | app/Policies/UserPolicy.php:48-51 | `users.delete`, whatever the target |
| RefreshTokenModel.IsValid | app/Models/RefreshToken.php:60-63 | not revoked and `now` strictly before the expiry; see `InvalidAtExpiry` and `Revoke` |
| TeamModel.Members | app/Models/Team.php:24-28 | the live users with a membership row; its meaning is `MembersAreLive` |
| TeamModel.Managers | app/Models/Team.php:44-49 | the members holding the Manager role; its meaning is `RosterByRole` |
| TeamModel.Associates | app/Models/Team.php:54-59 | the members holding the Associate role; its meaning is `RosterByRole` |
| ReviewResource.CanSeeName | app/Http/Resources/ReviewResource.php:44 | the resource's gate, equal to the policy's `viewName` by `CanSeeNameIsPolicy` |
| CheckRole.ForbiddenMessage | app/Http/Middleware/CheckRole.php:26-29 | the 403 body naming the required roles joined by ", " |
| TeamController.MayManage | app/Http/Controllers/TeamController.php:138 | `authorize('manageRoster', $team)`; its meaning is `MayManageMeans` |

## Left out

- Cryptography and encoding are parameters of the model. This covers JWT encoding and HS256 signing, `hash('sha256')`, bcrypt and `password_verify`, and `Str::random`. Only the claim values and the store transitions are modelled.
- Clocks are an integer `now` parameter in whole seconds. The model does not replace `Carbon`'s sub-second times.
- AuthService.Issued: one `now` serves all three clock reads of `generateTokens`: `time()` for `iat` and again for `exp` (`app/Services/AuthService.php:23-24`), and `Carbon::now()` for the record's expiry (line 34). Across a second boundary the source can give `exp == iat + 3601`, or an expiry one second later than the claims; the model always gives `exp == iat + 3600`.
- The rotation race is left out. `rotateToken` looks up, checks and revokes without a lock; the model runs these steps in sequence. The daily prune scheduler is also left out.
- Listing order (`latest()`) and pagination (`paginate(15)`) are left out. `ProjectController.Index` is a set of project ids.
- AuthService.Issued: the `role` claim is modelled as the set of role names. Its array order follows the lazily loaded relation and is not fixed.
- HTTP plumbing is left out: OpenAPI annotations, JSON response shapes other than the modelled records, resources other than `ReviewResource`, routes and exception rendering. Status codes and error strings are modelled where the core returns them.
- The prune command's message "Deleted {count} expired tokens." is left out. Only the count is modelled.
- Form-request rules are modelled only where the controller's behaviour depends on them:
  - existence and uniqueness of emails, roles, users and project names;
  - the project status lists;
  - the 150-character project name limit.

  Format rules (`email`, `integer`, `boolean`, `max:100`, the password rules) and `LoginRequest` are not part of this model.
- UserController.Store: `StoreUserRequest` is not part of this model. The store rules are taken from the 422 response the endpoint documents ("Email exists or Invalid Role", `app/Http/Controllers/Admin/UserController.php:81`): an email some row has, soft-deleted rows included, or a role name no role carries. Other rules the request may hold are not modelled.
- `ReviewController`, `AssignmentController` and `DashboardController` are left out. They only call the gate and the services, or run reporting queries. `ReviewService` and the average rating of `Reviewable` (floating point) are also left out.
- Team `store`, `index` and `show` and user `index` are left out. They are plain CRUD behind the modelled policies.
- The `created_by` foreign key of projects is not part of `Schema.Database.Valid`. No modelled operation deletes user rows, so its `set null` never fires.
- JwtMiddleware.Decide: a token whose payload lacks `sub` is treated as malformed, because the resulting error is caught by the generic branch.
- AppServiceProvider.PolicyDecision: the ability is matched to a policy method exactly. Laravel turns a dashed ability into a camel-case method name, and PHP finds methods regardless of case, so `"manage-roster"` or `"VIEW"` would reach a policy method in the source; no call site in the program spells an ability that way. `UnknownAbilityDenied` is stated only for abilities that neither normalization could map to a policy method.
- Request values are modelled after the framework's global `TrimStrings` and `ConvertEmptyStringsToNull` middleware: a blank or empty field arrives as `None`. For `AuthController.Refresh` a blank `refresh_token` therefore gives 500, as a missing one does, and a blank or null project name is refused with 422 (by `required` on create). A key that is present with a null value still runs its `sometimes` rules, so `ProjectChanges` and `UserChanges` distinguish an absent key (`None`) from one sent as null (`Some(None)`): in `ProjectController.Update` a null `name` fails `string` and a null `status` fails `in:`, and in `UserController.Update` a null field fails its `string`, `email` or `boolean` rule, and a null `role_name` fails `string`, each with 422.
- AuthController.Refresh and AuthController.Logout are reached only after `JwtMiddleware.Decide` has authenticated the request (`routes/api.php:32-36`); the middleware and the controller are modelled as separate steps. `Refresh` does not use the authenticated user at all.
- The UserController methods sit inside the `role:Executive` group (`routes/api.php:71-75`), so over HTTP they are reached only after `CheckRole.Handle` with `["Executive"]` has passed. A holder of `users.update` or `users.delete` without the Executive role gets 403 from the middleware first. `UserController.Update` and `UserController.Destroy` state only the controller's own checks.
- `TeamController.AddMember` and `TeamController.RemoveMember` model the controller methods only: `Route::apiResource('teams', …)` (`routes/api.php:62`) registers no route that reaches them.
- PHP's loose comparisons are not modelled; ids are compared as integers. The JWT `sub` is an integer id.

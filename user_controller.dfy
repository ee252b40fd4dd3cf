/** The administrator's account operations. `Store` creates an active
    account and attaches one role; `Update` changes the given fields and,
    when a role is named, replaces the whole role set by that one role;
    `Destroy` soft-deletes the account and then revokes all of its refresh
    tokens. */
module UserController {
  import opened Domain
  import opened HasRoles
  import opened RefreshTokenModel
  import opened Schema
  import AppServiceProvider

  datatype AdminError =
    | NotFound          // 404: no live user for the route
    | Forbidden         // 403: the gate refuses
    | ValidationFailed  // 422: the request's rules refuse the input

  /** The fields `only(...)` picks up. Each is None when the request does
      not carry its key and Some(None) when it is sent as null or blank;
      all four are under `sometimes` rules, which refuse a null. */
  datatype UserChanges = UserChanges(
    firstName: Option<Option<string>>,
    lastName: Option<Option<string>>,
    email: Option<Option<string>>,
    isActive: Option<Option<bool>>)

  /** No field of the changes is sent as null. */
  predicate NoNullField(c: UserChanges) {
    c.firstName != Some(None) && c.lastName != Some(None) && c.email != Some(None) && c.isActive != Some(None)
  }

  function ApplyChanges(row: UserRow, c: UserChanges): (r: UserRow)
    ensures c.firstName.None? ==> r.firstName == row.firstName
    ensures c.firstName.Some? && c.firstName.value.Some? ==> r.firstName == c.firstName.value.value
    ensures c.lastName.None? ==> r.lastName == row.lastName
    ensures c.lastName.Some? && c.lastName.value.Some? ==> r.lastName == c.lastName.value.value
    ensures c.email.None? ==> r.email == row.email
    ensures c.email.Some? && c.email.value.Some? ==> r.email == c.email.value.value
    ensures c.isActive.None? ==> r.isActive == row.isActive
    ensures c.isActive.Some? && c.isActive.value.Some? ==> r.isActive == c.isActive.value.value
    ensures r.passwordHash == row.passwordHash && r.deleted == row.deleted
  {
    UserRow(
      SentOr(c.firstName, row.firstName), SentOr(c.lastName, row.lastName), SentOr(c.email, row.email),
      row.passwordHash, SentOr(c.isActive, row.isActive), row.deleted)
  }

  // ------------------------------------------------------------------
  // Single writes that keep the schema invariant, used by the actions below.

  /** Inserts a row with an email no row has, at the next user id. */
  method InsertUser(db: Database, row: UserRow) returns (id: UserId)
    requires db.Valid()
    requires forall u :: u in db.users ==> db.users[u].email != row.email
    modifies db`users, db`nextUserId
    ensures db.Valid()
    ensures id == old(db.nextUserId) && id !in old(db.users)
    ensures db.users == old(db.users)[id := row] && db.nextUserId == id + 1
  {
    id := db.nextUserId;
    db.users := db.users[id := row];
    db.nextUserId := id + 1;
  }

  /** Rewrites an existing row, keeping emails unique. */
  method WriteUser(db: Database, target: UserId, row: UserRow)
    requires db.Valid() && target in db.users
    requires forall u :: u in db.users && u != target ==> db.users[u].email != row.email
    modifies db`users
    ensures db.Valid()
    ensures db.users == old(db.users)[target := row]
  {
    db.users := db.users[target := row];
  }

  /** Attaches one existing role to an existing user. */
  method AddUserRole(db: Database, u: UserId, q: RoleId)
    requires db.Valid() && u in db.users && q in db.roles
    modifies db`userRoles
    ensures db.Valid()
    ensures db.userRoles == old(db.userRoles) + {(u, q)}
  {
    db.userRoles := db.userRoles + {(u, q)};
  }

  /** Syncs a user's roles to a set of existing roles. */
  method SyncUserRoles(db: Database, u: UserId, qs: set<RoleId>)
    requires db.Valid() && u in db.users && forall q :: q in qs ==> q in db.roles
    modifies db`userRoles
    ensures db.Valid()
    ensures db.userRoles == SyncPivot(old(db.userRoles), u, qs)
  {
    db.userRoles := SyncPivot(db.userRoles, u, qs);
  }

  /** `store`; `passwordHash` is the hash of the random initial password.
      The request refuses (422) an email some row already has, soft-deleted
      rows included, and a role name no role carries; otherwise the row is
      inserted and that one role attached. */
  method Store(db: Database, firstName: string, lastName: string, email: string, roleName: string, passwordHash: string)
    returns (r: Result<UserId, AdminError>)
    requires db.Valid()
    modifies db`users, db`nextUserId, db`userRoles
    ensures db.Valid()
    ensures r.Failure? <==>
              (exists u :: u in old(db.users) && old(db.users)[u].email == email) || RoleByName(db.roles, roleName).None?
    ensures r.Failure? ==> r == Failure(ValidationFailed) && unchanged(db)
    ensures r.Success? ==>
              var id := old(db.nextUserId);
              && r == Success(id) && id !in old(db.users)
              && db.users == old(db.users)[id := UserRow(firstName, lastName, email, passwordHash, true, false)]
              && db.nextUserId == id + 1
              && db.userRoles == old(db.userRoles) + {(id, RoleByName(db.roles, roleName).value)}
              && RoleNames(db.Graph(), id) == {roleName}
  {
    if exists u :: u in db.users && db.users[u].email == email {
      return Failure(ValidationFailed);
    }
    if !(exists q :: q in db.roles && db.roles[q] == roleName) {
      return Failure(ValidationFailed);
    }
    var q :| q in db.roles && db.roles[q] == roleName;
    RoleByNameIs(db.roles, roleName, q);
    assert forall m :: m in db.userRoles ==> m.0 != db.nextUserId;
    var id := InsertUser(db, UserRow(firstName, lastName, email, passwordHash, true, false));
    AddUserRole(db, id, q);
    assert RoleNames(db.Graph(), id) == {roleName} by {
      forall n | n in RoleNames(db.Graph(), id) ensures n == roleName {
        var q' :| q' in db.roles && (id, q') in db.userRoles && db.roles[q'] == n;
        assert q' == q;
      }
      assert roleName in RoleNames(db.Graph(), id);
    }
    r := Success(id);
  }

  /** The rules of the update request that the controller relies on: no
      field, the role name included, is sent as null; a new email is not
      taken by another row (soft-deleted ones included); and a named role
      exists. */
  ghost predicate UpdateAccepted(db: Database, target: UserId, changes: UserChanges, roleName: Option<Option<string>>)
    reads db
  {
    && NoNullField(changes) && roleName != Some(None)
    && (changes.email.Some? && changes.email.value.Some? ==>
          forall u :: u in db.users && u != target ==> db.users[u].email != changes.email.value.value)
    && (roleName.Some? && roleName.value.Some? ==> RoleByName(db.roles, roleName.value.value).Some?)
  }

  /** `update`, behind its form request: the route binding, then the
      `users.update` permission, then the request rules; only then the
      fields and the role change. `roleName` is the request's `role_name`,
      None when absent and Some(None) when sent as null or blank. Refresh
      tokens are outside the frame, so deactivating an account revokes none
      of them. */
  method Update(db: Database, requester: UserId, target: UserId, changes: UserChanges, roleName: Option<Option<string>>)
    returns (r: Result<UserId, AdminError>)
    requires db.Valid()
    modifies db`users, db`userRoles
    ensures db.Valid()
    ensures r.Failure? ==> unchanged(db)
    ensures !LiveUser(old(db.users), target) ==> r == Failure(NotFound)
    ensures LiveUser(old(db.users), target) && !HasPermission(old(db.Graph()), User(requester, None), USERS_UPDATE) ==>
              r == Failure(Forbidden)
    ensures LiveUser(old(db.users), target) && HasPermission(old(db.Graph()), User(requester, None), USERS_UPDATE) ==>
              && (r.Success? <==> old(UpdateAccepted(db, target, changes, roleName)))
              && (r.Failure? ==> r == Failure(ValidationFailed))
    ensures r.Success? ==> old(UpdateAccepted(db, target, changes, roleName))
    ensures r.Success? ==>
              && r.value == target
              && db.users == old(db.users)[target := ApplyChanges(old(db.users)[target], changes)]
              && (roleName.None? ==> db.userRoles == old(db.userRoles))
              && (roleName.Some? ==>
                    && roleName.value.Some?
                    && db.userRoles == SyncPivot(old(db.userRoles), target, {RoleByName(db.roles, roleName.value.value).value}))
  {
    if !(target in db.users && !db.users[target].deleted) {
      return Failure(NotFound);
    }
    AppServiceProvider.DottedAbilityIsPermission(db.Graph(), User(requester, None), db.Relations(), USERS_UPDATE, AppServiceProvider.NoTarget);
    if !AppServiceProvider.Allows(db.Graph(), User(requester, None), db.Relations(), USERS_UPDATE, AppServiceProvider.NoTarget) {
      return Failure(Forbidden);
    }
    if !NoNullField(changes) || roleName == Some(None) {
      return Failure(ValidationFailed);
    }
    if changes.email.Some? && exists u :: u in db.users && u != target && db.users[u].email == changes.email.value.value {
      return Failure(ValidationFailed);
    }
    if roleName.Some? && !(exists q :: q in db.roles && db.roles[q] == roleName.value.value) {
      return Failure(ValidationFailed);
    }
    assert UpdateAccepted(db, target, changes, roleName);
    var row := ApplyChanges(db.users[target], changes);
    assert forall u :: u in db.users && u != target ==> db.users[u].email != row.email;
    WriteUser(db, target, row);
    if roleName.Some? {
      var q :| q in db.roles && db.roles[q] == roleName.value.value;
      RoleByNameIs(db.roles, roleName.value.value, q);
      SyncUserRoles(db, target, {q});
    }
    r := Success(target);
  }

  /** A successful update that names a role leaves the account with exactly
      that role and everybody else's roles as they were. */
  lemma UpdateRoleMeans(g: Graph, target: UserId, roleName: string, r: RoleId)
    requires r in g.roles && g.roles[r] == roleName
    ensures RoleNames(g.(userRoles := SyncPivot(g.userRoles, target, {r})), target) == {roleName}
    ensures forall v :: v != target ==>
              RoleNames(g.(userRoles := SyncPivot(g.userRoles, target, {r})), v) == RoleNames(g, v)
  {
    var g' := g.(userRoles := SyncPivot(g.userRoles, target, {r}));
    assert roleName in RoleNames(g', target);
    forall v | v != target ensures RoleNames(g', v) == RoleNames(g, v) {
      forall n | n in RoleNames(g, v) ensures n in RoleNames(g', v) {
        var q :| q in g.roles && (v, q) in g.userRoles && g.roles[q] == n;
        assert (v, q) in g'.userRoles;
      }
    }
  }

  /** `destroy`: the route binding, the `delete` ability of the user policy,
      the soft delete, then the revocation of every refresh token the
      account holds. */
  method Destroy(db: Database, requester: UserId, target: UserId) returns (r: Result<UserId, AdminError>)
    requires db.Valid()
    modifies db`users, db`refreshTokens
    ensures db.Valid()
    ensures !LiveUser(old(db.users), target) ==> r == Failure(NotFound) && unchanged(db)
    ensures LiveUser(old(db.users), target)
            && !AppServiceProvider.Allows(db.Graph(), User(requester, None), db.Relations(), "delete", AppServiceProvider.UserOf(target)) ==>
              r == Failure(Forbidden) && unchanged(db)
    ensures r.Success? ==>
              && db.users == old(db.users)[target := old(db.users)[target].(deleted := true)]
              && db.refreshTokens == RevokeAllOf(old(db.refreshTokens), target)
              && !LiveUser(db.users, target)
    ensures r.Success? <==>
              LiveUser(old(db.users), target) && HasPermission(db.Graph(), User(requester, None), USERS_DELETE)
  {
    if !(target in db.users && !db.users[target].deleted) {
      return Failure(NotFound);
    }
    AppServiceProvider.PlainAbilityIsPolicy(db.Graph(), User(requester, None), db.Relations(), "delete", AppServiceProvider.UserOf(target));
    if !AppServiceProvider.Allows(db.Graph(), User(requester, None), db.Relations(), "delete", AppServiceProvider.UserOf(target)) {
      return Failure(Forbidden);
    }
    db.users := db.users[target := db.users[target].(deleted := true)];
    RevokeAllOfKeepsUnique(db.refreshTokens, target);
    db.refreshTokens := RevokeAllOf(db.refreshTokens, target);
    r := Success(target);
  }

  /** After a destroy, no earlier refresh token of the account can be rotated. */
  lemma DestroyRevokesEveryToken(ts: seq<RefreshToken>, target: UserId, i: nat, later: int)
    requires UniqueHashes(ts) && i < |ts| && ts[i].userId == target
    ensures Rejects(RevokeAllOf(ts, target), ts[i].tokenHash, later)
  {
    RevokeAllOfRejects(ts, target, i, later);
  }

  /** Deactivating through `update` leaves the refresh tokens as they were:
      the rows are untouched (see the frame of `Update`), so a valid one is
      still accepted by a rotation. */
  lemma DeactivationKeepsTokens(ts: seq<RefreshToken>, i: nat, now: int)
    requires UniqueHashes(ts) && i < |ts| && IsValid(ts[i], now)
    ensures !Rejects(ts, ts[i].tokenHash, now)
  {
    FindByHashUnique(ts, i);
  }
}

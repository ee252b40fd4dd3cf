/** The credential endpoints. Login and register are public; refresh and
    logout sit behind the JWT middleware, so they run only for a request
    whose access token `JwtMiddleware.Decide` authenticates. Login checks
    the credentials before the active flag and issues one pair; register
    sets the name and password of an account an administrator created and
    issues a pair without looking at the active flag; refresh maps every
    failure of a rotation it can catch to 401 and never compares the
    token's owner with the authenticated user; logout revokes all of the
    requester's refresh tokens. Request values arrive after the framework's
    global middleware, which trims strings and turns an empty one into
    null: a blank field is `None` here. */
module AuthController {
  import opened Domain
  import opened RefreshTokenModel
  import opened Schema
  import opened AuthService

  datatype Reply =
    | TokensIssued(user: UserId, pair: TokenPair)
    | Refused(status: int, error: string)

  const INVALID_CREDENTIALS: Reply := Refused(401, "Invalid credentials")
  const INACTIVE: Reply := Refused(403, "Account is inactive")
  const INVALID_REFRESH: Reply := Refused(401, "Invalid or expired token")
  /** An error the action does not catch: the framework answers 500. */
  const SERVER_ERROR: Reply := Refused(500, "Server Error")
  /** The body of a 422 lists the failed rules; only the status is modelled. */
  const VALIDATION_FAILED: Reply := Refused(422, "Validation failed")
  /** The error text the application renders for a 404 under `api/`. */
  const NOT_FOUND: Reply := Refused(404, "Resource not found")

  /** The live user with that email, if there is one; emails are unique, so
      there is at most one. */
  ghost function LiveUserByEmail(users: map<UserId, UserRow>, email: string): Option<UserId> {
    if exists u :: LiveUser(users, u) && users[u].email == email then
      Some(var u :| LiveUser(users, u) && users[u].email == email; u)
    else None
  }

  lemma LiveUserByEmailIs(users: map<UserId, UserRow>, email: string, u: UserId)
    requires UniqueEmails(users) && LiveUser(users, u) && users[u].email == email
    ensures LiveUserByEmail(users, email) == Some(u)
  {
  }

  class AuthController {
    const auth: AuthService

    constructor (auth: AuthService)
      ensures this.auth == auth
    {
      this.auth := auth;
    }

    /** `login`; `verify` is `password_verify` and `raw` the fresh secret. */
    method Login(email: string, password: string, verify: (string, string) -> bool, raw: string, now: int)
      returns (r: Reply)
      requires auth.db.Valid()
      modifies auth.db`refreshTokens
      ensures auth.db.Valid()
      ensures var found := LiveUserByEmail(auth.db.users, email);
        && (found.None? || !verify(password, auth.db.users[found.value].passwordHash) ==>
              r == INVALID_CREDENTIALS && auth.db.refreshTokens == old(auth.db.refreshTokens))
        && (found.Some? && verify(password, auth.db.users[found.value].passwordHash) && !auth.db.users[found.value].isActive ==>
              r == INACTIVE && auth.db.refreshTokens == old(auth.db.refreshTokens))
        && (found.Some? && verify(password, auth.db.users[found.value].passwordHash) && auth.db.users[found.value].isActive ==>
              if FindByHash(old(auth.db.refreshTokens), auth.sha256(raw)).Some? then
                r == SERVER_ERROR && auth.db.refreshTokens == old(auth.db.refreshTokens)
              else
                && r == TokensIssued(found.value, Issued(auth.appUrl, auth.db.Graph(), found.value, raw, now))
                && auth.db.refreshTokens == old(auth.db.refreshTokens) + [NewRecord(found.value, auth.sha256(raw), now, REFRESH_TTL)])
    {
      var db := auth.db;
      if !(exists u :: u in db.users && !db.users[u].deleted && db.users[u].email == email) {
        return INVALID_CREDENTIALS;
      }
      var u :| u in db.users && !db.users[u].deleted && db.users[u].email == email;
      LiveUserByEmailIs(db.users, email, u);
      if !verify(password, db.users[u].passwordHash) {
        return INVALID_CREDENTIALS;
      }
      if !db.users[u].isActive {
        return INACTIVE;
      }
      var issued := auth.GenerateTokens(u, raw, now);
      match issued
      case Success(pair) => r := TokensIssued(u, pair);
      case Failure(_) => r := SERVER_ERROR;
    }

    /** `register`; `passwordHash` is the bcrypt hash of the chosen password. */
    method Register(email: string, firstName: string, lastName: string, passwordHash: string, raw: string, now: int)
      returns (r: Reply)
      requires auth.db.Valid()
      modifies auth.db`users, auth.db`refreshTokens
      ensures auth.db.Valid()
      ensures (forall u :: u in old(auth.db.users) ==> old(auth.db.users)[u].email != email) ==>
                r == VALIDATION_FAILED && unchanged(auth.db)
      ensures (exists u :: u in old(auth.db.users) && old(auth.db.users)[u].email == email)
              && LiveUserByEmail(old(auth.db.users), email).None? ==>
                r == NOT_FOUND && unchanged(auth.db)
      ensures LiveUserByEmail(old(auth.db.users), email).Some? ==>
                var u := LiveUserByEmail(old(auth.db.users), email).value;
                && auth.db.users == old(auth.db.users)[u := old(auth.db.users)[u].(firstName := firstName, lastName := lastName, passwordHash := passwordHash)]
                && (FindByHash(old(auth.db.refreshTokens), auth.sha256(raw)).Some? ==>
                      r == SERVER_ERROR && auth.db.refreshTokens == old(auth.db.refreshTokens))
                && (FindByHash(old(auth.db.refreshTokens), auth.sha256(raw)).None? ==>
                      && r == TokensIssued(u, Issued(auth.appUrl, auth.db.Graph(), u, raw, now))
                      && auth.db.refreshTokens == old(auth.db.refreshTokens) + [NewRecord(u, auth.sha256(raw), now, REFRESH_TTL)])
    {
      var db := auth.db;
      if !(exists u :: u in db.users && db.users[u].email == email) {
        return VALIDATION_FAILED;
      }
      if !(exists u :: u in db.users && !db.users[u].deleted && db.users[u].email == email) {
        return NOT_FOUND;
      }
      var u :| u in db.users && !db.users[u].deleted && db.users[u].email == email;
      LiveUserByEmailIs(db.users, email, u);
      db.users := db.users[u := db.users[u].(firstName := firstName, lastName := lastName, passwordHash := passwordHash)];
      var issued := auth.GenerateTokens(u, raw, now);
      match issued
      case Success(pair) => r := TokensIssued(u, pair);
      case Failure(_) => r := SERVER_ERROR;
    }

    /** `refresh`: `input` is the request's `refresh_token`, None when it is
        absent, null or blank. */
    method Refresh(input: Option<string>, newRaw: string, now: int) returns (r: Reply)
      requires auth.db.Valid()
      modifies auth.db`refreshTokens
      ensures auth.db.Valid()
      ensures input.None? ==> r == SERVER_ERROR && auth.db.refreshTokens == old(auth.db.refreshTokens)
      ensures input.Some? && Rejects(old(auth.db.refreshTokens), auth.sha256(input.value), now) ==>
                r == INVALID_REFRESH && auth.db.refreshTokens == old(auth.db.refreshTokens)
      ensures input.Some? && !Rejects(old(auth.db.refreshTokens), auth.sha256(input.value), now) ==>
                var ts := old(auth.db.refreshTokens);
                var i := FindByHash(ts, auth.sha256(input.value)).value;
                var owner := ts[i].userId;
                var revoked := ts[i := Revoke(ts[i])];
                && (!LiveUser(auth.db.users, owner) ==>
                      r == SERVER_ERROR && auth.db.refreshTokens == revoked)
                && (LiveUser(auth.db.users, owner) && FindByHash(revoked, auth.sha256(newRaw)).Some? ==>
                      r == INVALID_REFRESH && auth.db.refreshTokens == revoked)
                && (LiveUser(auth.db.users, owner) && FindByHash(revoked, auth.sha256(newRaw)).None? ==>
                      && r == TokensIssued(owner, Issued(auth.appUrl, auth.db.Graph(), owner, newRaw, now))
                      && auth.db.refreshTokens == revoked + [NewRecord(owner, auth.sha256(newRaw), now, REFRESH_TTL)])
    {
      if input.None? {
        return SERVER_ERROR;
      }
      var rotated := auth.RotateToken(input.value, newRaw, now);
      match rotated
      case Success(pair) => r := TokensIssued(pair.accessClaims.sub, pair);
      case Failure(OwnerUnavailable) => r := SERVER_ERROR;
      case Failure(_) => r := INVALID_REFRESH;
    }

    /** `logout`: all of the requester's refresh tokens are revoked. */
    method Logout(requester: UserId)
      requires auth.db.Valid()
      modifies auth.db`refreshTokens
      ensures auth.db.Valid()
      ensures auth.db.refreshTokens == RevokeAllOf(old(auth.db.refreshTokens), requester)
    {
      auth.LogoutAllDevices(requester);
    }
  }
}

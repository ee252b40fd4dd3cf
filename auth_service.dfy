/** Issuing, rotating and revoking credentials. An issue stores one
    unrevoked record holding the SHA-256 of a fresh secret and hands back
    the secret itself with the access-token claims; a rotation accepts a
    secret once: it looks the record up, checks it, revokes it and issues a
    new pair for the record's owner. JWT encoding, the HS256 signature and
    the random secret are outside the model: the new secret is a parameter
    and SHA-256 an arbitrary function. */
module AuthService {
  import opened Domain
  import opened RefreshTokenModel
  import opened Schema

  /** Access-token lifetime: one hour, in seconds. */
  const ACCESS_TTL: int := 60 * 60
  /** Refresh-token lifetime: seven days, in seconds. */
  const REFRESH_TTL: int := 7 * 24 * 60 * 60
  const TOKEN_TYPE: string := "Bearer"

  /** The access-token payload: the registered claims `iss`, `sub`, `iat`
      and `exp` of section 4.1 of RFC 7519 (times in seconds since the
      epoch), plus the user's role names. */
  datatype AccessClaims = AccessClaims(iss: string, sub: UserId, role: set<string>, iat: int, exp: int)

  /** The returned pair; the access token is represented by the claims it
      encodes. */
  datatype TokenPair = TokenPair(accessClaims: AccessClaims, refreshToken: string, tokenType: string, expiresIn: int)

  datatype TokenError =
    | DuplicateTokenHash   // the unique index on token_hash refuses the insert
    | InvalidOrExpired     // rotation: no record, or one that is not valid
    | OwnerUnavailable     // rotation: the record's owner is gone (soft-deleted)

  function Issued(appUrl: string, g: Graph, u: UserId, raw: string, now: int): (p: TokenPair)
    ensures p.accessClaims.sub == u && p.accessClaims.iss == appUrl
    ensures p.accessClaims.role == RoleNames(g, u)
    ensures p.accessClaims.iat == now && p.accessClaims.exp == p.accessClaims.iat + p.expiresIn
    ensures p.expiresIn == 3600 && p.tokenType == "Bearer" && p.refreshToken == raw
  {
    TokenPair(AccessClaims(appUrl, u, RoleNames(g, u), now, now + ACCESS_TTL), raw, TOKEN_TYPE, ACCESS_TTL)
  }

  class AuthService {
    const db: Database
    /** `config('app.url')`, the issuer claim. */
    const appUrl: string
    const sha256: string -> string

    constructor (db: Database, appUrl: string, sha256: string -> string)
      ensures this.db == db && this.appUrl == appUrl && this.sha256 == sha256
    {
      this.db := db;
      this.appUrl := appUrl;
      this.sha256 := sha256;
    }

    /** `generateTokens` with `raw` as the fresh secret. */
    method GenerateTokens(u: UserId, raw: string, now: int) returns (r: Result<TokenPair, TokenError>)
      requires db.Valid() && u in db.users
      modifies db`refreshTokens
      ensures db.Valid()
      ensures FindByHash(old(db.refreshTokens), sha256(raw)).Some? ==>
                r == Failure(DuplicateTokenHash) && db.refreshTokens == old(db.refreshTokens)
      ensures FindByHash(old(db.refreshTokens), sha256(raw)).None? ==>
                && r == Success(Issued(appUrl, db.Graph(), u, raw, now))
                && db.refreshTokens == old(db.refreshTokens) + [NewRecord(u, sha256(raw), now, REFRESH_TTL)]
    {
      var h := sha256(raw);
      if FindByHash(db.refreshTokens, h).Some? {
        return Failure(DuplicateTokenHash);
      }
      var record := NewRecord(u, h, now, REFRESH_TTL);
      AppendKeepsUnique(db.refreshTokens, record);
      db.refreshTokens := db.refreshTokens + [record];
      r := Success(Issued(appUrl, db.Graph(), u, raw, now));
    }

    /** `rotateToken(raw)`, with `newRaw` as the secret of the new pair. */
    method RotateToken(raw: string, newRaw: string, now: int) returns (r: Result<TokenPair, TokenError>)
      requires db.Valid()
      modifies db`refreshTokens
      ensures db.Valid()
      ensures Rejects(old(db.refreshTokens), sha256(raw), now) ==>
                r == Failure(InvalidOrExpired) && db.refreshTokens == old(db.refreshTokens)
      ensures !Rejects(old(db.refreshTokens), sha256(raw), now) ==>
                var ts := old(db.refreshTokens);
                var i := FindByHash(ts, sha256(raw)).value;
                var owner := ts[i].userId;
                var revoked := ts[i := Revoke(ts[i])];
                && (!LiveUser(db.users, owner) ==>
                      r == Failure(OwnerUnavailable) && db.refreshTokens == revoked)
                && (LiveUser(db.users, owner) && FindByHash(revoked, sha256(newRaw)).Some? ==>
                      r == Failure(DuplicateTokenHash) && db.refreshTokens == revoked)
                && (LiveUser(db.users, owner) && FindByHash(revoked, sha256(newRaw)).None? ==>
                      && r == Success(Issued(appUrl, db.Graph(), owner, newRaw, now))
                      && db.refreshTokens == revoked + [NewRecord(owner, sha256(newRaw), now, REFRESH_TTL)])
      ensures !Rejects(old(db.refreshTokens), sha256(raw), now) ==>
                forall later :: Rejects(db.refreshTokens, sha256(raw), later)
    {
      var h := sha256(raw);
      var found := FindByHash(db.refreshTokens, h);
      if found.None? || !IsValid(db.refreshTokens[found.value], now) {
        return Failure(InvalidOrExpired);
      }
      var i := found.value;
      var ts := db.refreshTokens;
      var owner := ts[i].userId;
      RevokeAtKeepsUnique(ts, i);
      db.refreshTokens := ts[i := Revoke(ts[i])];
      forall later | true ensures Rejects(db.refreshTokens, h, later) {
        RevokedIsRejected(ts, i, later);
      }
      if !(owner in db.users && !db.users[owner].deleted) {
        return Failure(OwnerUnavailable);
      }
      var revoked := db.refreshTokens;
      r := GenerateTokens(owner, newRaw, now);
      if r.Success? {
        assert revoked[i].tokenHash == h;
        forall later | true ensures Rejects(db.refreshTokens, h, later) {
          AppendKeepsRejected(revoked, NewRecord(owner, sha256(newRaw), now, REFRESH_TTL), h, later);
        }
      }
    }

    /** `logoutAllDevices`: every record of the user is revoked. */
    method LogoutAllDevices(u: UserId)
      requires db.Valid()
      modifies db`refreshTokens
      ensures db.Valid()
      ensures db.refreshTokens == RevokeAllOf(old(db.refreshTokens), u)
    {
      RevokeAllOfKeepsUnique(db.refreshTokens, u);
      db.refreshTokens := RevokeAllOf(db.refreshTokens, u);
    }
  }

  /** A successful rotation leaves the store with exactly one more record,
      and the earlier secret refused from then on: a second rotation with it
      fails, even before the old record would have expired. */
  lemma SecondRotationFails(ts: seq<RefreshToken>, i: nat, next: RefreshToken, later: int)
    requires UniqueHashes(ts) && i < |ts|
    requires FindByHash(ts[i := Revoke(ts[i])], next.tokenHash).None?
    ensures Rejects(ts[i := Revoke(ts[i])] + [next], ts[i].tokenHash, later)
    ensures |ts[i := Revoke(ts[i])] + [next]| == |ts| + 1
  {
    RevokedIsRejected(ts, i, later);
    assert ts[i := Revoke(ts[i])][i].tokenHash == ts[i].tokenHash;
    AppendKeepsRejected(ts[i := Revoke(ts[i])], next, ts[i].tokenHash, later);
  }
}

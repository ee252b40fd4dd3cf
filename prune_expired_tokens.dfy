/** The console command that deletes refresh tokens whose expiry lies
    strictly before now, revoked or not, and reports how many it deleted. */
module PruneExpiredTokens {
  import opened Domain
  import opened RefreshTokenModel
  import opened Schema

  method Handle(db: Database, now: int) returns (count: nat)
    requires db.Valid()
    modifies db`refreshTokens
    ensures db.Valid()
    ensures db.refreshTokens == Unexpired(old(db.refreshTokens), now)
    ensures count == CountExpired(old(db.refreshTokens), now)
    ensures count == |old(db.refreshTokens)| - |db.refreshTokens|
  {
    var before := db.refreshTokens;
    UnexpiredKeepsUnique(before, now);
    db.refreshTokens := Unexpired(before, now);
    count := CountExpired(before, now);
  }
}

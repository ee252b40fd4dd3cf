/** Refresh-token records and the `refresh_tokens` table they live in.
    A record is Active until it is revoked or its expiry passes; revocation
    is terminal. The table is a sequence of records in insertion order whose
    hashes are unique (the unique index on `token_hash`). */
module RefreshTokenModel {
  import opened Domain

  /** A row of `refresh_tokens`; times are whole seconds. */
  datatype RefreshToken = RefreshToken(
    userId: UserId,
    tokenHash: string,
    isRevoked: bool,
    expiresAt: int,
    createdAt: int)

  /** `isValid`: not revoked, and the expiry lies strictly after `now`. */
  predicate IsValid(t: RefreshToken, now: int) {
    !t.isRevoked && now < t.expiresAt
  }

  /** `revoke`: the record with `is_revoked` set; nothing else changes. */
  function Revoke(t: RefreshToken): (r: RefreshToken)
    ensures r.isRevoked
    ensures r.userId == t.userId && r.tokenHash == t.tokenHash
    ensures r.expiresAt == t.expiresAt && r.createdAt == t.createdAt
    ensures forall now :: !IsValid(r, now)
  {
    t.(isRevoked := true)
  }

  /** A record expiring exactly now is already invalid. */
  lemma InvalidAtExpiry(t: RefreshToken)
    ensures !IsValid(t, t.expiresAt)
  {
  }

  /** Revoking twice is revoking once. */
  lemma RevokeIdempotent(t: RefreshToken)
    ensures Revoke(Revoke(t)) == Revoke(t)
  {
  }

  // ------------------------------------------------------------------
  // The table

  predicate UniqueHashes(ts: seq<RefreshToken>) {
    forall i, j :: 0 <= i < |ts| && 0 <= j < |ts| && i != j ==> ts[i].tokenHash != ts[j].tokenHash
  }

  /** `where('token_hash', h)->first()`: the position of the first record
      with that hash. */
  function FindByHash(ts: seq<RefreshToken>, h: string): (r: Option<nat>)
    ensures r.Some? ==> r.value < |ts| && ts[r.value].tokenHash == h
    ensures r.Some? ==> forall j :: 0 <= j < r.value ==> ts[j].tokenHash != h
    ensures r.None? ==> forall j :: 0 <= j < |ts| ==> ts[j].tokenHash != h
    decreases |ts|
  {
    if ts == [] then None
    else if ts[0].tokenHash == h then Some(0)
    else
      match FindByHash(ts[1..], h)
      case Some(i) => Some(i + 1)
      case None => None
  }

  /** With unique hashes, the lookup finds the one record with that hash. */
  lemma FindByHashUnique(ts: seq<RefreshToken>, i: nat)
    requires UniqueHashes(ts) && i < |ts|
    ensures FindByHash(ts, ts[i].tokenHash) == Some(i)
  {
  }

  /** Rotation refuses the secret whose hash is `h`: no record has that hash,
      or the record that has it is not valid. */
  predicate Rejects(ts: seq<RefreshToken>, h: string, now: int) {
    match FindByHash(ts, h)
    case None => true
    case Some(i) => !IsValid(ts[i], now)
  }

  /** The record created for a freshly issued secret. */
  function NewRecord(u: UserId, h: string, now: int, ttl: int): (r: RefreshToken)
    ensures r.userId == u && r.tokenHash == h && !r.isRevoked
    ensures r.expiresAt - r.createdAt == ttl && r.createdAt == now
    ensures ttl > 0 ==> IsValid(r, now)
  {
    RefreshToken(u, h, false, now + ttl, now)
  }

  /** The bulk update `refreshTokens()->update(['is_revoked' => true])` of
      one user's records, row by row. */
  function RevokeAllOf(ts: seq<RefreshToken>, u: UserId): (r: seq<RefreshToken>)
    ensures |r| == |ts|
    ensures forall i :: 0 <= i < |ts| && ts[i].userId == u ==> r[i] == Revoke(ts[i])
    ensures forall i :: 0 <= i < |ts| && ts[i].userId != u ==> r[i] == ts[i]
    decreases |ts|
  {
    if ts == [] then []
    else [if ts[0].userId == u then Revoke(ts[0]) else ts[0]] + RevokeAllOf(ts[1..], u)
  }

  /** The records that survive `where('expires_at', '<', now)->delete()`. */
  function Unexpired(ts: seq<RefreshToken>, now: int): (r: seq<RefreshToken>)
    ensures forall t :: t in r <==> t in ts && now <= t.expiresAt
    ensures |r| == |ts| - CountExpired(ts, now)
    decreases |ts|
  {
    if ts == [] then []
    else if ts[0].expiresAt < now then Unexpired(ts[1..], now)
    else [ts[0]] + Unexpired(ts[1..], now)
  }

  /** How many records expired strictly before `now`. */
  function CountExpired(ts: seq<RefreshToken>, now: int): nat
    decreases |ts|
  {
    if ts == [] then 0
    else (if ts[0].expiresAt < now then 1 else 0) + CountExpired(ts[1..], now)
  }

  // ------------------------------------------------------------------
  // What the table operations preserve

  lemma RevokeAtKeepsUnique(ts: seq<RefreshToken>, i: nat)
    requires UniqueHashes(ts) && i < |ts|
    ensures UniqueHashes(ts[i := Revoke(ts[i])])
  {
  }

  lemma AppendKeepsUnique(ts: seq<RefreshToken>, t: RefreshToken)
    requires UniqueHashes(ts) && FindByHash(ts, t.tokenHash).None?
    ensures UniqueHashes(ts + [t])
  {
  }

  lemma RevokeAllOfKeepsUnique(ts: seq<RefreshToken>, u: UserId)
    requires UniqueHashes(ts)
    ensures UniqueHashes(RevokeAllOf(ts, u))
  {
  }

  lemma {:induction false} UnexpiredKeepsUnique(ts: seq<RefreshToken>, now: int)
    requires UniqueHashes(ts)
    ensures UniqueHashes(Unexpired(ts, now))
    decreases |ts|
  {
    if ts != [] {
      var tail := ts[1..];
      assert UniqueHashes(tail) by {
        forall i, j | 0 <= i < |tail| && 0 <= j < |tail| && i != j
          ensures tail[i].tokenHash != tail[j].tokenHash
        {
          assert tail[i] == ts[i + 1] && tail[j] == ts[j + 1];
        }
      }
      UnexpiredKeepsUnique(tail, now);
      if ts[0].expiresAt >= now {
        var rest := Unexpired(tail, now);
        var r := [ts[0]] + rest;
        forall k | 0 <= k < |rest| ensures rest[k].tokenHash != ts[0].tokenHash {
          assert rest[k] in tail;
          var j :| 0 <= j < |tail| && tail[j] == rest[k];
          assert tail[j] == ts[j + 1];
        }
        forall i, j | 0 <= i < |r| && 0 <= j < |r| && i != j
          ensures r[i].tokenHash != r[j].tokenHash
        {
          if i > 0 && j > 0 {
            assert r[i] == rest[i - 1] && r[j] == rest[j - 1];
          } else if i == 0 {
            assert r[j] == rest[j - 1];
          } else {
            assert r[i] == rest[i - 1];
          }
        }
      }
    }
  }

  // ------------------------------------------------------------------
  // Single use and bulk revocation

  /** Once its record is revoked, a secret is refused at every instant. */
  lemma RevokedIsRejected(ts: seq<RefreshToken>, i: nat, now: int)
    requires UniqueHashes(ts) && i < |ts|
    ensures Rejects(ts[i := Revoke(ts[i])], ts[i].tokenHash, now)
  {
    FindByHashUnique(ts[i := Revoke(ts[i])], i);
  }

  /** Inserting a record with another hash does not revive a refused secret. */
  lemma AppendKeepsRejected(ts: seq<RefreshToken>, t: RefreshToken, h: string, now: int)
    requires Rejects(ts, h, now) && t.tokenHash != h
    ensures Rejects(ts + [t], h, now)
  {
    var ts' := ts + [t];
    match FindByHash(ts, h)
    case None =>
      assert forall j :: 0 <= j < |ts'| ==> ts'[j].tokenHash != h by {
        forall j | 0 <= j < |ts'| ensures ts'[j].tokenHash != h {
          if j < |ts| { assert ts'[j] == ts[j]; }
        }
      }
    case Some(i) =>
      var f := FindByHash(ts', h);
      assert ts'[i] == ts[i];
      assert forall j :: 0 <= j < i ==> ts'[j] == ts[j];
      assert f == Some(i);
  }

  /** After revoking all of a user's records, every earlier secret of that
      user is refused. */
  lemma RevokeAllOfRejects(ts: seq<RefreshToken>, u: UserId, i: nat, now: int)
    requires UniqueHashes(ts) && i < |ts| && ts[i].userId == u
    ensures Rejects(RevokeAllOf(ts, u), ts[i].tokenHash, now)
  {
    var r := RevokeAllOf(ts, u);
    RevokeAllOfKeepsUnique(ts, u);
    FindByHashUnique(r, i);
  }

  /** Revoking all of a user's records twice is revoking them once. */
  lemma RevokeAllOfIdempotent(ts: seq<RefreshToken>, u: UserId)
    ensures RevokeAllOf(RevokeAllOf(ts, u), u) == RevokeAllOf(ts, u)
  {
    var once := RevokeAllOf(ts, u);
    var twice := RevokeAllOf(once, u);
    assert |twice| == |once|;
    forall i | 0 <= i < |once| ensures twice[i] == once[i] {
      if ts[i].userId == u {
        RevokeIdempotent(ts[i]);
      }
    }
  }

  // ------------------------------------------------------------------
  // Pruning

  /** A second prune at the same instant removes nothing. */
  lemma {:induction false} PruneIdempotent(ts: seq<RefreshToken>, now: int)
    ensures Unexpired(Unexpired(ts, now), now) == Unexpired(ts, now)
    ensures CountExpired(Unexpired(ts, now), now) == 0
    decreases |ts|
  {
    if ts != [] {
      PruneIdempotent(ts[1..], now);
      if ts[0].expiresAt >= now {
        var rest := Unexpired(ts[1..], now);
        assert ([ts[0]] + rest)[1..] == rest;
      }
    }
  }

  /** Revoked records that have not expired yet survive the prune, and so do
      records expiring exactly now, although they are no longer valid. */
  lemma PruneKeepsBoundary(ts: seq<RefreshToken>, t: RefreshToken, now: int)
    requires t in ts && now <= t.expiresAt
    ensures t in Unexpired(ts, now)
    ensures t.expiresAt == now ==> !IsValid(t, now)
  {
  }
}

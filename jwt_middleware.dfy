/** The bearer-token gate in front of every protected route: a chain of
    early exits over the token's presence, the outcome of decoding it, the
    lookup of its subject and that user's active flag. Only a request that
    passes every test gets its user set and reaches the next handler. */
module JwtMiddleware {
  import opened Domain

  /** What decoding and verifying the JWT yields: its subject claim, or the
      kind of exception the decoder raises. Signature checking and time
      checks happen inside the decoder and are not modelled. */
  datatype Decoded = Claims(sub: UserId) | Expired | BadSignature | Malformed

  /** `Authenticated(u)`: the response is the next handler's, with user u. */
  datatype Outcome =
    | Authenticated(user: UserId)
    | Rejected(status: int, error: string, message: Option<string>)

  const MISSING: Outcome := Rejected(401, "Unauthorized", Some("Bearer token missing"))
  const NOT_FOUND: Outcome := Rejected(401, "User not found", None)
  const SUSPENDED: Outcome :=
    Rejected(403, "Account Suspended", Some("Your account is inactive. Please contact an administrator."))
  const EXPIRED: Outcome := Rejected(401, "Token Expired", Some("Please refresh your token."))
  const INVALID: Outcome := Rejected(401, "Token Invalid", Some("The token signature could not be verified."))
  const MALFORMED: Outcome := Rejected(401, "Unauthorized token", Some("The token is malformed or invalid."))

  /** `!$token`: no header, an empty token and the token "0" all count as missing. */
  predicate Falsy(token: Option<string>) {
    token.None? || token.value == "" || token.value == "0"
  }

  function Decide(bearer: Option<string>, decode: string -> Decoded, users: map<UserId, UserRow>): (r: Outcome)
    ensures Falsy(bearer) ==> r == MISSING
    ensures r.Authenticated? <==>
              && !Falsy(bearer)
              && decode(bearer.value).Claims?
              && LiveUser(users, decode(bearer.value).sub)
              && users[decode(bearer.value).sub].isActive
    ensures r.Authenticated? ==> r.user == decode(bearer.value).sub
    ensures r.Rejected? ==> r.status == 401 || r == SUSPENDED
  {
    if Falsy(bearer) then MISSING
    else
      match decode(bearer.value)
      case Expired => EXPIRED
      case BadSignature => INVALID
      case Malformed => MALFORMED
      case Claims(sub) =>
        if !LiveUser(users, sub) then NOT_FOUND
        else if !users[sub].isActive then SUSPENDED
        else Authenticated(sub)
  }

  /** Each decode failure has its own 401 answer. */
  lemma DecodeFailuresMap(bearer: Option<string>, decode: string -> Decoded, users: map<UserId, UserRow>)
    requires !Falsy(bearer)
    ensures decode(bearer.value) == Expired ==> Decide(bearer, decode, users) == EXPIRED
    ensures decode(bearer.value) == BadSignature ==> Decide(bearer, decode, users) == INVALID
    ensures decode(bearer.value) == Malformed ==> Decide(bearer, decode, users) == MALFORMED
  {
  }

  /** A well-formed, unexpired, correctly signed token names a user who is
      absent or soft-deleted: 401; names an inactive user: 403. */
  lemma SubjectChecks(bearer: Option<string>, decode: string -> Decoded, users: map<UserId, UserRow>, sub: UserId)
    requires !Falsy(bearer) && decode(bearer.value) == Claims(sub)
    ensures !LiveUser(users, sub) ==> Decide(bearer, decode, users) == NOT_FOUND
    ensures LiveUser(users, sub) && !users[sub].isActive ==> Decide(bearer, decode, users) == SUSPENDED
  {
  }

  /** The request as the middleware sees it: the bearer token it carries, the
      user its resolver returns, and how often the next handler ran. */
  class Request {
    const bearer: Option<string>
    var user: Option<UserId>
    var nextCalls: nat

    constructor (bearer: Option<string>)
      ensures this.bearer == bearer && user == None && nextCalls == 0
    {
      this.bearer := bearer;
      user := None;
      nextCalls := 0;
    }
  }

  /** `handle`: on success the request's user is set and the next handler
      runs exactly once; on any failure the request is left as it was. */
  method Handle(request: Request, decode: string -> Decoded, users: map<UserId, UserRow>) returns (r: Outcome)
    modifies request
    ensures r == Decide(request.bearer, decode, users)
    ensures r.Authenticated? ==> request.user == Some(r.user) && request.nextCalls == old(request.nextCalls) + 1
    ensures r.Rejected? ==> request.user == old(request.user) && request.nextCalls == old(request.nextCalls)
  {
    r := Decide(request.bearer, decode, users);
    if r.Authenticated? {
      request.user := Some(r.user);
      request.nextCalls := request.nextCalls + 1;
    }
  }
}

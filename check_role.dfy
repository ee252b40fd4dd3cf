/** The role gate `role:A,B,...` on a route: an unauthenticated request is
    refused with 401, a user holding none of the listed roles with 403, and
    anyone else passes through. */
module CheckRole {
  import opened Domain
  import opened HasRoles

  datatype Outcome = PassThrough | Denied(status: int, error: string, message: Option<string>)

  /** `implode(sep, parts)`. */
  function Join(parts: seq<string>, sep: string): string
    decreases |parts|
  {
    if |parts| == 0 then ""
    else if |parts| == 1 then parts[0]
    else parts[0] + sep + Join(parts[1..], sep)
  }

  function ForbiddenMessage(roles: seq<string>): string {
    "You do not have the required role (" + Join(roles, ", ") + ") to access this resource."
  }

  /** `handle`; the listed roles always arrive as an array. */
  function Handle(g: Graph, user: Option<User>, roles: seq<string>): (r: Outcome)
    ensures user.None? ==> r == Denied(401, "Unauthorized", None)
    ensures user.Some? ==> (r == PassThrough <==> HasAnyRole(g, user.value, RoleArray(roles)))
    ensures user.Some? && r != PassThrough ==> r == Denied(403, "Forbidden", Some(ForbiddenMessage(roles)))
  {
    if user.None? then Denied(401, "Unauthorized", None)
    else if !HasAnyRole(g, user.value, RoleArray(roles)) then Denied(403, "Forbidden", Some(ForbiddenMessage(roles)))
    else PassThrough
  }

  /** With the loaded roles reflecting the store, a user passes exactly when
      one of their role names is listed; an empty list lets nobody through. */
  lemma HandleMeans(g: Graph, user: User, roles: seq<string>)
    requires Consistent(g, user)
    ensures Handle(g, Some(user), roles) == PassThrough <==>
            exists n :: n in roles && n in RoleNames(g, user.userId)
    ensures roles == [] ==> Handle(g, Some(user), roles) != PassThrough
  {
    HasAnyRoleAgrees(g, user, RoleArray(roles));
  }

  /** Joining keeps every part and puts the separator between neighbours. */
  lemma {:induction false} JoinCons(x: string, parts: seq<string>, sep: string)
    requires parts != []
    ensures Join([x] + parts, sep) == x + sep + Join(parts, sep)
  {
    assert ([x] + parts)[1..] == parts;
  }
}

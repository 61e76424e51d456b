/**
  Role rules. A user's role lives in the identity provider's public metadata, read through a
  lookup given here as the function `roleOf` (absent metadata is `None`); the signed-in user's id
  comes from the session. A thrown `Error` is a `Failure` carrying its message.
*/
module Roles {
  import opened Common

  const AdminRole: string := "ADMIN"
  const UserRole: string := "USER"

  const Unauthorized: string := "Unauthorized"
  const Forbidden: string := "Forbidden: Admin access required"

  /** The id `getUserRole` looks up: the explicit one when truthy, else the session's. */
  function EffectiveUserId(userId: Option<string>, sessionUserId: Option<string>): Option<string> {
    if TruthyString(userId) then userId else sessionUserId
  }

  /**
    `getUserRole`: no id at all, or no role in the metadata, means `USER`; otherwise the role
    the metadata holds.
  */
  function GetUserRole(userId: Option<string>, sessionUserId: Option<string>, roleOf: string -> Option<string>): (role: string)
    ensures role != ""
    ensures !TruthyString(userId) && !TruthyString(sessionUserId) ==> role == UserRole
    ensures var id := EffectiveUserId(userId, sessionUserId);
            role == UserRole || (TruthyString(id) && roleOf(id.value) == Some(role))
    ensures role == AdminRole <==>
              || (TruthyString(userId) && roleOf(userId.value) == Some(AdminRole))
              || (!TruthyString(userId) && TruthyString(sessionUserId) && roleOf(sessionUserId.value) == Some(AdminRole))
  {
    var effective := EffectiveUserId(userId, sessionUserId);
    if !TruthyString(effective) then UserRole
    else OrElse(roleOf(effective.value), UserRole)
  }

  /** `hasRole`: asking for `ADMIN` checks the role; asking for anything else always holds. */
  function HasRole(required: string, userId: Option<string>, sessionUserId: Option<string>, roleOf: string -> Option<string>): (r: bool)
    ensures required == AdminRole ==> (r <==> GetUserRole(userId, sessionUserId, roleOf) == AdminRole)
    ensures required != AdminRole ==> r
  {
    var role := GetUserRole(userId, sessionUserId, roleOf);
    if required == AdminRole then role == AdminRole else true
  }

  /** `requireAuth`: the signed-in user's id, or `Unauthorized`. */
  function RequireAuth(sessionUserId: Option<string>): (r: Result<string>)
    ensures r.Success? <==> TruthyString(sessionUserId)
    ensures r.Success? ==> r.value == sessionUserId.value && r.value != ""
    ensures r.Failure? ==> r.message == Unauthorized
  {
    if !TruthyString(sessionUserId) then Failure(Unauthorized) else Success(sessionUserId.value)
  }

  /**
    `requireAdmin`: `Unauthorized` before any role check, then `Forbidden` unless the user's
    role is `ADMIN`; otherwise the user's id.
  */
  function RequireAdmin(sessionUserId: Option<string>, roleOf: string -> Option<string>): (r: Result<string>)
    ensures r.Success? <==> TruthyString(sessionUserId) && roleOf(sessionUserId.value) == Some(AdminRole)
    ensures r.Success? ==> r.value == sessionUserId.value
    ensures !TruthyString(sessionUserId) ==> r == Failure(Unauthorized)
    ensures TruthyString(sessionUserId) && r.Failure? ==> r == Failure(Forbidden)
  {
    var auth := RequireAuth(sessionUserId);
    if auth.Failure? then Failure(auth.message)
    else if !HasRole(AdminRole, Some(auth.value), sessionUserId, roleOf) then Failure(Forbidden)
    else Success(auth.value)
  }
}

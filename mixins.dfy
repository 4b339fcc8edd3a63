/** `RoleRequiredMixin.dispatch`: the group-based gate of the class-based views. */
module Mixins {
  import opened Domain

  /** Who is making the request. */
  datatype Visitor = Anonymous | SignedIn(user: User)

  datatype Decision =
    | NoPermission   // handle_no_permission(): sent to the login page
    | Forbidden      // PermissionDenied (HTTP 403)
    | Admit          // super().dispatch(...)

  /** `any(user in group g for g in allowed)`, over the list in order. */
  function AnyAllowed(u: User, allowed: seq<string>): (r: bool)
    ensures r <==> exists g :: g in allowed && InGroup(u, g)
  {
    if allowed == [] then false
    else InGroup(u, allowed[0]) || AnyAllowed(u, allowed[1..])
  }

  function RoleRequired(v: Visitor, allowedGroups: seq<string>): Decision {
    match v
    case Anonymous => NoPermission
    case SignedIn(u) =>
      if IsAdmin(u) then Admit
      else if !AnyAllowed(u, allowedGroups) then Forbidden
      else Admit
  }

  lemma AnonymousIsSentToLogin(allowedGroups: seq<string>)
    ensures RoleRequired(Anonymous, allowedGroups) == NoPermission
  {
  }

  lemma AdminAlwaysAdmitted(u: User, allowedGroups: seq<string>)
    requires IsAdmin(u)
    ensures RoleRequired(SignedIn(u), allowedGroups) == Admit
  {
  }

  /** Anyone else is admitted exactly when they are in one of the allowed groups, and is otherwise forbidden. */
  lemma OthersNeedAnAllowedGroup(u: User, allowedGroups: seq<string>)
    requires !IsAdmin(u)
    ensures RoleRequired(SignedIn(u), allowedGroups) == Admit <==>
      exists i :: 0 <= i < |allowedGroups| && InGroup(u, allowedGroups[i])
    ensures RoleRequired(SignedIn(u), allowedGroups) != NoPermission
  {
    if RoleRequired(SignedIn(u), allowedGroups) == Admit {
      var g :| g in allowedGroups && InGroup(u, g);
      var i :| 0 <= i < |allowedGroups| && allowedGroups[i] == g;
    }
  }

  /** With the default empty `allowed_groups`, only superusers and "Administrador" members get in. */
  lemma EmptyAllowsOnlyAdmins(v: Visitor)
    ensures RoleRequired(v, []) == Admit <==> v.SignedIn? && IsAdmin(v.user)
  {
  }
}

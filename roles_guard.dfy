/** RolesGuard: the role check in front of every @Roles(...) route. */
module RolesGuard {
  import opened Wrappers
  import opened Entities

  /** canActivate, given the roles the handler or its class requires (None when
      it has no @Roles metadata) and the role of the request's user (None when
      no user is attached to the request). */
  function CanActivate(requiredRoles: Option<seq<Role>>, user: Option<Role>): (allowed: bool)
    ensures requiredRoles == None ==> allowed
    ensures requiredRoles == Some([]) ==> allowed
    ensures requiredRoles.Some? && |requiredRoles.value| > 0 ==>
      (allowed <==> user.Some? && user.value in requiredRoles.value)
  {
    match requiredRoles
    case None => true
    case Some(roles) =>
      if |roles| == 0 then true
      else user.Some? && user.value in roles
  }

  /** Whenever some role is required, a request without a user is refused. */
  lemma NoUserNoAccess(roles: seq<Role>)
    requires |roles| > 0
    ensures !CanActivate(Some(roles), None)
  {
  }

  /** Once some role is required, adding another never locks anyone out. */
  lemma MoreRolesNeverDeny(roles: seq<Role>, extra: Role, user: Option<Role>)
    requires |roles| > 0 && CanActivate(Some(roles), user)
    ensures CanActivate(Some(roles + [extra]), user)
  {
    assert user.value in roles + [extra];
  }

  /** The first role, though, closes an open route: an empty list admits every
      request, a one-role list only the users holding that role. */
  lemma FirstRoleCloses(extra: Role, user: Option<Role>)
    ensures CanActivate(Some([]), user)
    ensures CanActivate(Some([extra]), user) <==> user == Some(extra)
  {
  }
}

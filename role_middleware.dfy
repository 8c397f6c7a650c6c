/**
 * RequireRole of internal/middleware/role.go: a middleware made from a list of
 * role names. It builds the set of allowed roles once, then for each request
 * asks for an identified user, that user's profile, and a profile role that is
 * allowed, in that order.
 */
module RoleMiddleware {
  import opened Wrappers
  import opened Text
  import opened ObjectIds
  import opened RequestContext

  /** The middleware RequireRole(roles...) returns: the role list and the allowed map built from it. */
  datatype RoleGuard = RoleGuard(roles: seq<string>, allowed: map<string, bool>)

  /** The allowed map holds exactly the listed roles, each mapped to true. */
  predicate Built(guard: RoleGuard) {
    && guard.allowed.Keys == (set r | r in guard.roles)
    && forall r | r in guard.allowed :: guard.allowed[r]
  }

  /** RequireRole(roles...): the loop that fills allowed. */
  method RequireRole(roles: seq<string>) returns (guard: RoleGuard)
    ensures guard.roles == roles && Built(guard)
  {
    var allowed: map<string, bool> := map[];
    var i := 0;
    while i < |roles|
      invariant 0 <= i <= |roles|
      invariant allowed.Keys == (set r | r in roles[..i])
      invariant forall r | r in allowed :: allowed[r]
    {
      assert roles[..i + 1] == roles[..i] + [roles[i]];
      allowed := allowed[roles[i] := true];
      i := i + 1;
    }
    assert roles[..i] == roles;
    guard := RoleGuard(roles, allowed);
  }

  /** allowed[role] in Go: false for a role that is not a key. */
  predicate Allows(allowed: map<string, bool>, role: string) {
    role in allowed && allowed[role]
  }

  /**
   * The per-request decision. profileRole is the role of the profile the store
   * returns for the user, or None when that lookup fails.
   */
  function Check(guard: RoleGuard, ctx: Context, profileRole: Option<string>): (g: Gate)
    ensures GetUserID(ctx) == Nil ==> g == Respond(401, "Unauthorized: user not identified", map[])
    ensures GetUserID(ctx) != Nil && profileRole.None? ==>
      g == Respond(403, "Profile not found for this user", map[])
    ensures g.Next? <==> GetUserID(ctx) != Nil && profileRole.Some? && Allows(guard.allowed, profileRole.value)
    ensures g.Next? ==> g.ctx == ctx.(role := profileRole) && GetUserRole(g.ctx) == profileRole.value
    ensures g.Respond? ==> g.code == 401 || g.code == 403
  {
    if GetUserID(ctx) == Nil then
      Respond(401, "Unauthorized: user not identified", map[])
    else if profileRole.None? then
      Respond(403, "Profile not found for this user", map[])
    else if !Allows(guard.allowed, profileRole.value) then
      Respond(403, "Forbidden: insufficient permissions",
        map["current_role" := profileRole.value, "required_roles" := Join(guard.roles, ", ")])
    else
      Next(ctx.(role := profileRole))
  }

  /** With a guard RequireRole built, a request passes exactly when its profile role is one of the listed roles. */
  lemma CheckAdmitsListedRoles(guard: RoleGuard, ctx: Context, profileRole: Option<string>)
    requires Built(guard)
    ensures Check(guard, ctx, profileRole).Next? <==>
      GetUserID(ctx) != Nil && profileRole.Some? && profileRole.value in guard.roles
  {
    if profileRole.Some? {
      assert profileRole.value in guard.allowed <==> profileRole.value in guard.roles;
    }
  }

  /** A refused role is reported together with the full list of roles the route accepts. */
  lemma RefusalNamesRoles(guard: RoleGuard, ctx: Context, role: string)
    requires Built(guard)
    requires GetUserID(ctx) != Nil && role !in guard.roles
    ensures Check(guard, ctx, Some(role)) ==
      Respond(403, "Forbidden: insufficient permissions",
        map["current_role" := role, "required_roles" := Join(guard.roles, ", ")])
  {
    assert role !in guard.allowed;
  }

  /** RequireRole() with no roles forbids every request. */
  lemma NoRolesForbidsAll(guard: RoleGuard, ctx: Context, profileRole: Option<string>)
    requires Built(guard) && guard.roles == []
    ensures Check(guard, ctx, profileRole).Respond?
  {
    CheckAdmitsListedRoles(guard, ctx, profileRole);
  }
}

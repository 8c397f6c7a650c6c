/**
 * The request context values the middleware chain passes on: the user id that
 * Auth stores under "userID" and the role that RequireRole stores under
 * "userRole", and what a middleware decides for a request: call the next
 * handler with a context, or answer it.
 */
module RequestContext {
  import opened Wrappers
  import opened ObjectIds

  datatype Context = Context(userId: Option<ObjectId>, role: Option<string>)

  /** The context of a request no middleware has touched. */
  const Background: Context := Context(None, None)

  /**
   * A middleware's decision: call next with this context, or answer with a
   * status and a message. details holds the extra fields of a JSON error body.
   */
  datatype Gate =
    | Next(ctx: Context)
    | Respond(code: int, message: string, details: map<string, string>)

  /** GetUserID: the stored id, or NilObjectID when the context holds none. */
  function GetUserID(ctx: Context): ObjectId {
    ctx.userId.GetOr(Nil)
  }

  /** GetUserRole: the stored role, or "" when the context holds none. */
  function GetUserRole(ctx: Context): string {
    ctx.role.GetOr("")
  }

  /** A request that went through no middleware reads as anonymous and role-less. */
  lemma BackgroundIsAnonymous()
    ensures GetUserID(Background) == Nil && GetUserRole(Background) == ""
  {
  }
}

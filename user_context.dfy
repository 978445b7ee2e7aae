/** The request-scoped identity holder and the middleware that fills it. */
module UserContext {
  import opened Wrappers
  import opened Roles
  import opened Identity

  const NotInitialized := "UserContext not initialized"

  /** UserContextService: one instance per request; `user` starts null. */
  class UserContextService {
    var user: Option<AuthUser>

    constructor ()
      ensures user == None
    {
      user := None;
    }

    /** setUser overwrites whatever was stored; nothing keeps it to a single call. */
    method SetUser(u: AuthUser)
      modifies this
      ensures user == Some(u)
    {
      user := Some(u);
    }

    /** getUser raises while no user has been set, and changes nothing. */
    method GetUser() returns (r: Result<AuthUser>)
      ensures user.None? ==> r == Err(Failure(NotInitialized))
      ensures user.Some? ==> r == Ok(user.value)
    {
      if user.None? {
        return Err(Failure(NotInitialized));
      }
      return Ok(user.value);
    }

    /** getUserId is getUser().id: it raises exactly when getUser raises. */
    method GetUserId() returns (r: Result<string>)
      ensures user.None? ==> r == Err(Failure(NotInitialized))
      ensures user.Some? ==> r == Ok(user.value.id)
    {
      var u := GetUser();
      if u.Err? {
        return Err(u.error);
      }
      return Ok(u.value.id);
    }

    /**
     * The role checks CategoriesService calls. UserContextService defines neither, so the call as
     * written raises a TypeError; the model substitutes membership of the role in the stored user's
     * role list. An admin is exactly a user whose highest role resolves to ADMIN.
     */
    function IsAdmin(): (admin: bool)
      reads this
      ensures admin <==> ResolveHighestRole(ClaimedRoles(user)) == Some(Admin)
    {
      if user.Some? && user.value.role.RoleList? then
        ResolveHighestRolePrefersAdminThenEditor(user.value.role.names);
        HoldsRole(user.value, Admin)
      else false
    }

    /** An editor who is not also an admin is exactly a user whose highest role resolves to EDITOR. */
    function IsEditor(): (editor: bool)
      reads this
      ensures editor && !IsAdmin() <==> ResolveHighestRole(ClaimedRoles(user)) == Some(Editor)
    {
      if user.Some? && user.value.role.RoleList? then
        ResolveHighestRolePrefersAdminThenEditor(user.value.role.names);
        HoldsRole(user.value, Editor)
      else false
    }
  }

  /** A fresh context raises on read; after two setUser calls the last one wins. */
  method ContextLifecycle(u1: AuthUser, u2: AuthUser) returns (before: Result<AuthUser>, after: Result<AuthUser>)
    ensures before == Err(Failure(NotInitialized))
    ensures after == Ok(u2)
  {
    var ctx := new UserContextService();
    before := ctx.GetUser();
    ctx.SetUser(u1);
    ctx.SetUser(u2);
    after := ctx.GetUser();
  }

  /** UserContextMiddleware. */
  class UserContextMiddleware {
    const userContext: UserContextService

    constructor (ctx: UserContextService)
      ensures userContext == ctx
    {
      userContext := ctx;
    }

    /**
     * Copies `req.user` into the context when there is one, and calls `next` once on both paths.
     * The request is a value, so it cannot change; `nextCalls` counts the calls of `next`.
     */
    method Use(req: Request) returns (nextCalls: nat)
      modifies userContext
      ensures req.user.Some? ==> userContext.user == req.user
      ensures req.user.None? ==> userContext.user == old(userContext.user)
      ensures nextCalls == 1
    {
      if req.user.Some? {
        userContext.SetUser(req.user.value);
      }
      nextCalls := 1;
    }
  }
}

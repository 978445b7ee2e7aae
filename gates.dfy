/** The three guards: JwtAuthGuard, AnonymousGuard and RolesGuard. */
module Gates {
  import opened Wrappers
  import opened Roles
  import opened Identity

  /** The message Passport's UnauthorizedException carries. */
  const UnauthorizedMessage := "Unauthorized"
  const AlreadyAuthenticated := "Already authenticated"
  const ForbiddenResource := "Forbidden resource"

  /**
   * The token check behind `super.canActivate`: without a bearer header it fails; otherwise the
   * verifier (signature, expiry, then JwtStrategy.validate) either yields the user, which Passport
   * stores in `request.user`, or fails.
   */
  function PassportAuthenticate(req: Request, verify: string -> Option<AuthUser>): (r: Result<Request>)
    ensures r.Ok? <==> HasAuthHeader(req) && verify(req.authorization.value).Some?
    ensures r.Ok? ==> r.value == req.(user := verify(req.authorization.value))
    ensures r.Err? ==> r.error == Unauthorized(UnauthorizedMessage)
  {
    if !HasAuthHeader(req) then Err(Unauthorized(UnauthorizedMessage))
    else
      var u := verify(req.authorization.value);
      if u.None? then Err(Unauthorized(UnauthorizedMessage)) else Ok(req.(user := u))
  }

  /** The public-read bypass of JwtAuthGuard: a PublicRead route, a GET, and no Authorization header. */
  predicate PublicReadBypass(isPublicRead: bool, req: Request) {
    isPublicRead && req.verb == Get && !HasAuthHeader(req)
  }

  /** JwtAuthGuard.canActivate; on success it returns the request as the handler sees it. */
  function JwtAuthGuard(isPublicRead: bool, req: Request, verify: string -> Option<AuthUser>): (r: Result<Request>)
    // the bypass allows without consulting the verifier and leaves request.user as it was
    ensures PublicReadBypass(isPublicRead, req) ==> r == Ok(req)
    // every other request, on any route and with any method, goes through the verifier
    ensures !PublicReadBypass(isPublicRead, req) ==>
              (r.Ok? <==> HasAuthHeader(req) && verify(req.authorization.value).Some?)
    ensures !PublicReadBypass(isPublicRead, req) && r.Ok? ==>
              r.value == req.(user := verify(req.authorization.value))
    ensures r.Err? ==> r.error == Unauthorized(UnauthorizedMessage)
  {
    if PublicReadBypass(isPublicRead, req) then Ok(req)
    else PassportAuthenticate(req, verify)
  }

  /** The guard's verdict is a function of the route flag, the method, the header and the verifier's answer. */
  lemma JwtAuthGuardDependsOnlyOnItsInputs(isPublicRead: bool, req1: Request, req2: Request,
                                           verify1: string -> Option<AuthUser>, verify2: string -> Option<AuthUser>)
    requires req1.verb == req2.verb && req1.authorization == req2.authorization
    requires HasAuthHeader(req1) ==> verify1(req1.authorization.value) == verify2(req2.authorization.value)
    ensures JwtAuthGuard(isPublicRead, req1, verify1).Ok? == JwtAuthGuard(isPublicRead, req2, verify2).Ok?
    ensures !PublicReadBypass(isPublicRead, req1) && JwtAuthGuard(isPublicRead, req1, verify1).Ok? ==>
              JwtAuthGuard(isPublicRead, req1, verify1).value.user == JwtAuthGuard(isPublicRead, req2, verify2).value.user
  {
  }

  /** AnonymousGuard.canActivate: true, or ForbiddenException when any Authorization header is sent. */
  function AnonymousGuard(req: Request): (r: Result<bool>)
    ensures r.Ok? ==> r.value
    ensures r.Err? <==> HasAuthHeader(req)
    ensures r.Err? ==> r.error == Forbidden(AlreadyAuthenticated)
  {
    if HasAuthHeader(req) then Err(Forbidden(AlreadyAuthenticated)) else Ok(true)
  }

  /** A header is rejected whatever it holds and whoever the request claims to be; an empty header counts as none. */
  lemma AnonymousGuardIgnoresIdentity(req: Request, token: string, u: Option<AuthUser>)
    ensures token != "" ==> AnonymousGuard(req.(authorization := Some(token), user := u)) == Err(Forbidden(AlreadyAuthenticated))
    ensures AnonymousGuard(req.(authorization := Some(""), user := u)) == Ok(true)
    ensures AnonymousGuard(req.(user := u)) == AnonymousGuard(req)
  {
  }

  /** The required roles intersect the user's role list (`requiredRoles.some(role => user.role.includes(role))`). */
  predicate HasSomeRole(required: seq<Role>, u: AuthUser) {
    u.role.RoleList? && exists r :: r in required && RoleName(r) in u.role.names
  }

  /** RolesGuard.canActivate. `requiredRoles` is the @Roles metadata (None when absent). */
  function RolesGuard(requiredRoles: Option<seq<Role>>, isPublicRead: bool, req: Request): (allow: bool)
    ensures requiredRoles.None? ==> allow
    ensures requiredRoles.Some? && isPublicRead && req.verb == Get ==> allow
    ensures requiredRoles.Some? && !(isPublicRead && req.verb == Get) ==>
              (allow <==> req.user.Some? && HasSomeRole(requiredRoles.value, req.user.value))
  {
    if requiredRoles.None? then true
    else if isPublicRead && req.verb == Get then true
    else if req.user.None? || !req.user.value.role.RoleList? then false
    else exists r :: r in requiredRoles.value && RoleName(r) in req.user.value.role.names
  }

  /** Required {ADMIN} refuses an EDITOR; required {ADMIN, EDITOR} admits one; an empty list admits nobody. */
  lemma RolesGuardOrSemantics(isPublicRead: bool, req: Request, u: AuthUser)
    requires !(isPublicRead && req.verb == Get)
    requires u.role == RoleList(["editor"])
    ensures !RolesGuard(Some([Admin]), isPublicRead, req.(user := Some(u)))
    ensures RolesGuard(Some([Admin, Editor]), isPublicRead, req.(user := Some(u)))
    ensures !RolesGuard(Some([]), isPublicRead, req)
  {
    assert RoleName(Editor) in u.role.names;
    assert RoleName(Admin) !in u.role.names by {
      assert RoleName(Admin)[0] != "editor"[0];
    }
  }

  /** Holding more roles never turns an allow into a deny. */
  lemma RolesGuardMonotone(requiredRoles: Option<seq<Role>>, isPublicRead: bool, req: Request, more: seq<string>)
    requires req.user.Some? && req.user.value.role.RoleList?
    requires forall s :: s in req.user.value.role.names ==> s in more
    ensures RolesGuard(requiredRoles, isPublicRead, req) ==>
              RolesGuard(requiredRoles, isPublicRead, req.(user := Some(req.user.value.(role := RoleList(more)))))
  {
    if requiredRoles.Some? && !(isPublicRead && req.verb == Get) && RolesGuard(requiredRoles, isPublicRead, req) {
      var r :| r in requiredRoles.value && RoleName(r) in req.user.value.role.names;
      assert RoleName(r) in more;
    }
  }
}

/** What a request carries: its method, its headers and the identity the token strategy attached to it. */
module Identity {
  import opened Wrappers
  import opened Roles

  datatype HttpMethod = Get | Head | Post | Put | Patch | Delete | Options

  datatype Gender = Male | Female

  /** The presentation attributes copied from a user's profile into a token. */
  datatype ProfileSnapshot = ProfileSnapshot(
    avatar: Option<string>,
    bio: Option<string>,
    locale: Option<string>,
    gender: Option<Gender>)

  /**
   * The `role` property of an authenticated user. It is declared a string but the token strategy
   * puts the token's role array there, so it is either a list of role names or some other value.
   */
  datatype RoleClaim = RoleList(names: seq<string>) | NotAList

  /** `request.user`, as JwtStrategy.validate builds it. */
  datatype AuthUser = AuthUser(
    id: string,
    name: string,
    email: string,
    role: RoleClaim,
    profile: Option<ProfileSnapshot>)

  datatype Request = Request(
    verb: HttpMethod,
    authorization: Option<string>,   // the Authorization header
    acceptLanguage: Option<string>,  // the Accept-Language header
    user: Option<AuthUser>)          // request.user

  /** `request.headers.authorization` is truthy: present and not the empty string. */
  predicate HasAuthHeader(req: Request) {
    req.authorization.Some? && req.authorization.value != ""
  }

  /** The user holds the role: its role property is a list naming it. */
  predicate HoldsRole(u: AuthUser, r: Role) {
    u.role.RoleList? && RoleName(r) in u.role.names
  }

  /** `request.user?.role` as a role list; a claim that is not a list is read as no list. */
  function ClaimedRoles(user: Option<AuthUser>): Option<seq<string>> {
    if user.Some? && user.value.role.RoleList? then Some(user.value.role.names) else None
  }
}

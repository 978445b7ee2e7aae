/**
 * Authentication: TokenService, JwtStrategy.validate, and the two login services. `AuthService`
 * is the newer one (token with profile and expiry) and the one the auth module provides;
 * `LegacyAuthService` is the class the auth controller imports and injects, which no module
 * provides. Signing is a function parameter.
 */
module Auth {
  import opened Wrappers
  import opened Roles
  import opened Identity
  import opened Users

  const InvalidCredentials := "errors.INVALID_CREDENTIALS"
  const DefaultExpiresIn := 86400
  /** What reading `avatar` off an undefined `user.profile` throws. */
  const ProfileUndefined := "Cannot read properties of undefined (reading 'avatar')"

  /** The claims a token carries; the older service's tokens have no profile. */
  datatype JwtPayload = JwtPayload(
    sub: string,
    name: string,
    email: string,
    role: seq<string>,
    profile: Option<ProfileSnapshot>)

  /** A token lifetime as the JWT library takes it: a number of seconds, or a time span such as "1d". */
  datatype ExpiresIn = Seconds(seconds: int) | Span(text: string)

  datatype TokenResult = TokenResult(token: string, expiresIn: ExpiresIn)

  /** The `user` part of the login response. */
  datatype LoginUser = LoginUser(id: string, name: string, email: string, role: seq<Role>)

  datatype LoginResponse = LoginResponse(
    accessToken: string,
    tokenType: string,
    expiresIn: ExpiresIn,
    user: LoginUser)

  /** `buildJwtPayload(user)`: reads `user.profile.avatar` and so throws when no profile is set. */
  function BuildJwtPayload(user: User): (r: Result<JwtPayload>)
    reads user
    ensures r.Err? <==> user.profile.None?
    ensures r.Err? ==> r.error == TypeError(ProfileUndefined)
    ensures r.Ok? ==> r.value.sub == user.id && r.value.name == user.name && r.value.email == user.email &&
                      r.value.role == RoleNames(user.roles) && r.value.profile == user.profile
  {
    if user.profile.None? then Err(TypeError(ProfileUndefined))
    else
      var p := user.profile.value;
      Ok(JwtPayload(user.id, user.name, user.email, RoleNames(user.roles),
                    Some(ProfileSnapshot(p.avatar, p.bio, p.locale, p.gender))))
  }

  /** `buildJwtPayload` as evidently intended: the profile snapshot is taken only when a profile is set. */
  function BuildJwtPayloadCorrected(user: User): (r: JwtPayload)
    reads user
    ensures r.sub == user.id && r.name == user.name && r.email == user.email
    ensures r.role == RoleNames(user.roles) && r.profile == user.profile
  {
    JwtPayload(user.id, user.name, user.email, RoleNames(user.roles), user.profile)
  }

  /**
   * The `auth.jwtExpiresIn` setting auth.config.ts defines: the JWT_EXPIRES_IN environment variable
   * when it is non-empty, else "1d". Environment variables are strings.
   */
  function ConfiguredJwtExpiresIn(env: Option<string>): (setting: string)
    ensures setting != ""
    ensures env.Some? && env.value != "" ==> setting == env.value
    ensures env.None? || env == Some("") ==> setting == "1d"
  {
    if env.Some? && env.value != "" then env.value else "1d"
  }

  /**
   * `getAccessTokenExpiresIn()`: the configured value, else 86400 seconds. The `<number>` type
   * argument of `get` converts nothing, so a string setting is returned as the string.
   */
  function AccessTokenExpiresIn(configured: Option<ExpiresIn>): (e: ExpiresIn)
    ensures configured.Some? ==> e == configured.value
    ensures configured.None? ==> e == Seconds(DefaultExpiresIn)
  {
    if configured.Some? then configured.value else Seconds(DefaultExpiresIn)
  }

  /**
   * With auth.config.ts loaded the setting is always present and always a string, so the 86400
   * fallback is never taken and the reported lifetime is a span, "1d" by default, not seconds.
   */
  lemma LoadedConfigExpiryIsASpan(env: Option<string>)
    ensures AccessTokenExpiresIn(Some(Span(ConfiguredJwtExpiresIn(env)))).Span?
    ensures AccessTokenExpiresIn(Some(Span(ConfiguredJwtExpiresIn(env)))) != Seconds(DefaultExpiresIn)
    ensures env.None? ==> AccessTokenExpiresIn(Some(Span(ConfiguredJwtExpiresIn(env)))) == Span("1d")
  {
  }

  /** `generateAccessToken(user)`: signs the payload with the expiry it reports. */
  function GenerateAccessToken(user: User, sign: (JwtPayload, ExpiresIn) -> string, configured: Option<ExpiresIn>): (r: Result<TokenResult>)
    reads user
    ensures r.Err? <==> BuildJwtPayload(user).Err?
    ensures r.Err? ==> r.error == BuildJwtPayload(user).error
    ensures r.Ok? ==> r.value.expiresIn == AccessTokenExpiresIn(configured) &&
                      r.value.token == sign(BuildJwtPayload(user).value, r.value.expiresIn)
  {
    var payload :- BuildJwtPayload(user);
    var expiresIn := AccessTokenExpiresIn(configured);
    Ok(TokenResult(sign(payload, expiresIn), expiresIn))
  }

  /** `generateAccessToken` over the corrected payload; it cannot fail. */
  function GenerateAccessTokenCorrected(user: User, sign: (JwtPayload, ExpiresIn) -> string, configured: Option<ExpiresIn>): (r: TokenResult)
    reads user
    ensures r.expiresIn == AccessTokenExpiresIn(configured)
    ensures r.token == sign(BuildJwtPayloadCorrected(user), r.expiresIn)
  {
    var expiresIn := AccessTokenExpiresIn(configured);
    TokenResult(sign(BuildJwtPayloadCorrected(user), expiresIn), expiresIn)
  }

  /** `JwtStrategy.validate(payload)`: total; `sub` becomes `id`, everything else is copied. */
  function Validate(payload: JwtPayload): (u: AuthUser)
    ensures u.id == payload.sub && u.name == payload.name && u.email == payload.email
    ensures u.role == RoleList(payload.role) && u.profile == payload.profile
  {
    AuthUser(payload.sub, payload.name, payload.email, RoleList(payload.role), payload.profile)
  }

  /** A token built for a user with a profile validates back to that user's id, email, roles and profile. */
  lemma PayloadRoundTrip(user: User)
    requires user.profile.Some?
    ensures BuildJwtPayload(user).Ok?
    ensures var u := Validate(BuildJwtPayload(user).value);
            u.id == user.id && u.email == user.email && u.name == user.name &&
            u.role == RoleList(RoleNames(user.roles)) && u.profile == user.profile
  {
  }

  /** The identity from a token holds exactly the roles of the user it was built for. */
  lemma RoundTripKeepsRoles(user: User, r: Role)
    ensures HoldsRole(Validate(BuildJwtPayloadCorrected(user)), r) <==> r in user.roles
  {
    RoleNamesNameHeldRoles(user.roles, r);
  }

  /** The corrected payload validates back to the user for every user, loaded or just created. */
  lemma CorrectedPayloadRoundTrip(user: User)
    ensures var u := Validate(BuildJwtPayloadCorrected(user));
            u.id == user.id && u.email == user.email && u.name == user.name &&
            u.role == RoleList(RoleNames(user.roles)) && u.profile == user.profile
  {
  }

  /** The response `login` builds: type Bearer, the token's expiry, and the user without the password. */
  function LoginResponseFor(user: User, token: TokenResult): (r: LoginResponse)
    reads user
    ensures r.tokenType == "Bearer" && r.accessToken == token.token && r.expiresIn == token.expiresIn
    ensures r.user == LoginUser(user.id, user.name, user.email, user.roles)
  {
    LoginResponse(token.token, "Bearer", token.expiresIn, LoginUser(user.id, user.name, user.email, user.roles))
  }

  /** Credentials an active, not soft-deleted user's stored hash accepts. */
  ghost predicate Accepts(users: UsersService, email: string, password: string)
    reads users
  {
    exists k :: k in users.rows && users.rows[k].email == email && Findable(users.rows[k], true) &&
                users.bcrypt.compare(password, users.rows[k].password)
  }

  /** With unique emails, a stored row whose hash rejects the password leaves no row with that email that accepts it. */
  lemma OnlyRowWithEmail(users: UsersService, row: UserRow, email: string, password: string)
    requires users.Valid()
    requires row in users.rows.Values && row.email == email
    requires !users.bcrypt.compare(password, row.password)
    ensures !Accepts(users, email, password)
  {
    var j :| j in users.rows && users.rows[j] == row;
    forall k | k in users.rows && users.rows[k].email == email
      ensures !users.bcrypt.compare(password, users.rows[k].password)
    {
      assert k == j;
    }
  }

  /** The newer AuthService. */
  class AuthService {
    const users: UsersService
    const sign: (JwtPayload, ExpiresIn) -> string
    /** The `auth.jwtExpiresIn` setting, if any; `Some(Span(ConfiguredJwtExpiresIn(env)))` once auth.config.ts is loaded. */
    const configuredExpiresIn: Option<ExpiresIn>

    constructor (users: UsersService, sign: (JwtPayload, ExpiresIn) -> string, configuredExpiresIn: Option<ExpiresIn>)
      ensures this.users == users && this.sign == sign && this.configuredExpiresIn == configuredExpiresIn
    {
      this.users := users;
      this.sign := sign;
      this.configuredExpiresIn := configuredExpiresIn;
    }

    /**
     * `validateCredentials`: an unknown email, an inactive or deleted user and a wrong password all
     * give the same BadRequest.
     */
    method ValidateCredentials(email: string, password: string) returns (r: Result<User>)
      requires users.Valid()
      ensures r.Err? <==> !Accepts(users, email, password)
      ensures r.Err? ==> r.error == BadRequest(InvalidCredentials)
      ensures r.Ok? ==> fresh(r.value) && r.value.Row() in users.rows.Values && r.value.email == email &&
                        r.value.profile.None?
    {
      var user := users.FindActiveUserByEmail(email);
      if user.None? || !user.value.VerifyPassword(users.bcrypt, password) {
        if user.Some? {
          OnlyRowWithEmail(users, user.value.Row(), email, password);
        }
        return Err(BadRequest(InvalidCredentials));
      }
      return Ok(user.value);
    }

    /**
     * `login` as written: bad credentials give the BadRequest and no token; good ones reach
     * `buildJwtPayload` with a loaded user, which has no profile, so it throws.
     */
    method Login(email: string, password: string) returns (r: Result<LoginResponse>)
      requires users.Valid()
      ensures !Accepts(users, email, password) ==> r == Err(BadRequest(InvalidCredentials))
      ensures Accepts(users, email, password) ==> r == Err(TypeError(ProfileUndefined))
    {
      var user :- ValidateCredentials(email, password);
      match GenerateAccessToken(user, sign, configuredExpiresIn)
      case Err(e) => return Err(e);
      case Ok(token) => return Ok(LoginResponseFor(user, token));
    }

    /** `login` over the corrected payload: good credentials give the Bearer response. */
    method LoginCorrected(email: string, password: string) returns (r: Result<LoginResponse>)
      requires users.Valid()
      ensures r.Err? <==> !Accepts(users, email, password)
      ensures r.Err? ==> r.error == BadRequest(InvalidCredentials)
      ensures r.Ok? ==> r.value.tokenType == "Bearer" && r.value.user.email == email &&
                        r.value.expiresIn == AccessTokenExpiresIn(configuredExpiresIn)
      ensures r.Ok? ==> exists k :: k in users.rows && users.rows[k].email == email &&
                          r.value.user == LoginUser(users.rows[k].id, users.rows[k].name, email, users.rows[k].roles)
    {
      var user :- ValidateCredentials(email, password);
      var token := GenerateAccessTokenCorrected(user, sign, configuredExpiresIn);
      r := Ok(LoginResponseFor(user, token));
      var k :| k in users.rows && users.rows[k] == user.Row();
    }
  }

  /**
   * The older AuthService, the class the auth controller's `POST /auth/login` is written against.
   * The auth module provides only the newer class, so as wired the controller's dependency does
   * not resolve; the model takes the controller's import as the intended wiring.
   */
  class LegacyAuthService {
    const users: UsersService
    /** `jwtService.sign(payload)` with the module's default options. */
    const sign: JwtPayload -> string
    const translate: string -> string

    constructor (users: UsersService, sign: JwtPayload -> string, translate: string -> string)
      ensures this.users == users && this.sign == sign && this.translate == translate
    {
      this.users := users;
      this.sign := sign;
      this.translate := translate;
    }

    /** `validateCredentials`: a missing user and a wrong password give the same Unauthorized. */
    method ValidateCredentials(email: string, password: string) returns (r: Result<User>)
      requires users.Valid()
      ensures r.Err? <==> !Accepts(users, email, password)
      ensures r.Err? ==> r.error == Unauthorized(translate(InvalidCredentials))
      ensures r.Ok? ==> fresh(r.value) && r.value.Row() in users.rows.Values && r.value.email == email &&
                        r.value.isActive && r.value.deletedAt.None?
    {
      var user := users.FindUserByEmail(email, true);
      if user.None? || !user.value.VerifyPassword(users.bcrypt, password) {
        if user.Some? {
          OnlyRowWithEmail(users, user.value.Row(), email, password);
        }
        return Err(Unauthorized(translate(InvalidCredentials)));
      }
      return Ok(user.value);
    }

    /** `login`: `{ accessToken }` of a payload with `sub = id` and the user's name, email and roles. */
    method Login(email: string, password: string) returns (r: Result<string>)
      requires users.Valid()
      ensures r.Err? <==> !Accepts(users, email, password)
      ensures r.Err? ==> r.error == Unauthorized(translate(InvalidCredentials))
      ensures r.Ok? ==> exists k :: k in users.rows && users.rows[k].email == email &&
                          r.value == sign(LegacyPayload(users.rows[k]))
    {
      var user :- ValidateCredentials(email, password);
      var k :| k in users.rows && users.rows[k] == user.Row();
      return Ok(sign(LegacyPayload(user.Row())));
    }
  }

  /** The older service's payload: no profile. */
  function LegacyPayload(row: UserRow): (p: JwtPayload)
    ensures p.sub == row.id && p.name == row.name && p.email == row.email
    ensures p.role == RoleNames(row.roles) && p.profile.None?
  {
    JwtPayload(row.id, row.name, row.email, RoleNames(row.roles), None)
  }

  /** A legacy token validates back to the stored user's id, email and roles, with no profile. */
  lemma LegacyRoundTrip(row: UserRow)
    ensures var u := Validate(LegacyPayload(row));
            u.id == row.id && u.email == row.email && u.role == RoleList(RoleNames(row.roles)) && u.profile.None?
  {
  }
}

/**
 * The controllers' decorator metadata as a route table, and the request pipeline it configures:
 * JwtAuthGuard, then RolesGuard, then the handler, then the role serializer when one is declared.
 */
module Routes {
  import opened Wrappers
  import opened Roles
  import opened Identity
  import opened PlainValues
  import opened Gates
  import opened ResponseDtos
  import opened RoleSerializer
  import opened SerializerProperties
  import opened Imports

  datatype Controller = CategoriesController | EpisodesController | ProgramsController | ImportsController

  /** @PublicRead(), @Roles(...) and @SerializeByRole(dto) of a controller. */
  datatype RouteConfig = RouteConfig(publicRead: bool, roles: Option<seq<Role>>, serializer: Option<Dto>)

  const StaffRoles: seq<Role> := [Admin, Editor]

  function Config(c: Controller): (cfg: RouteConfig)
    ensures cfg.roles == Some(StaffRoles)
    ensures cfg.publicRead <==> c == CategoriesController || c == EpisodesController
    ensures c == CategoriesController ==> cfg.serializer == Some(CategoryResponse)
    ensures c == EpisodesController ==> cfg.serializer == Some(EpisodeResponse)
    ensures c == ProgramsController || c == ImportsController ==> cfg.serializer == None
  {
    match c
    case CategoriesController => RouteConfig(true, Some(StaffRoles), Some(CategoryResponse))
    case EpisodesController => RouteConfig(true, Some(StaffRoles), Some(EpisodeResponse))
    case ProgramsController => RouteConfig(false, Some(StaffRoles), None)
    case ImportsController => RouteConfig(false, Some(StaffRoles), None)
  }

  /** A request as it arrives: no strategy has attached a user yet. */
  predicate Incoming(req: Request) {
    req.user.None?
  }

  /** Both guards of the controller; on success, the request the handler receives. */
  function Admit(c: Controller, req: Request, verify: string -> Option<AuthUser>): (r: Result<Request>)
    ensures r.Err? ==> r.error == Unauthorized(UnauthorizedMessage) || r.error == Forbidden(ForbiddenResource)
    ensures r.Ok? ==> JwtAuthGuard(Config(c).publicRead, req, verify) == Ok(r.value)
    ensures r.Ok? <==> JwtAuthGuard(Config(c).publicRead, req, verify).Ok? &&
                       RolesGuard(Config(c).roles, Config(c).publicRead, JwtAuthGuard(Config(c).publicRead, req, verify).value)
  {
    var cfg := Config(c);
    match JwtAuthGuard(cfg.publicRead, req, verify)
    case Err(e) => Err(e)
    case Ok(authed) =>
      if RolesGuard(cfg.roles, cfg.publicRead, authed) then Ok(authed) else Err(Forbidden(ForbiddenResource))
  }

  /** The handler's result as the client receives it: projected when the controller declares a serializer. */
  function Respond(c: Controller, authed: Request, body: Value): (out: Value)
    ensures Config(c).serializer.None? ==> out == body
    ensures Config(c).serializer.Some? ==> out == Intercept(Config(c).serializer.value, authed, body)
  {
    match Config(c).serializer
    case None => body
    case Some(d) => Intercept(d, authed, body)
  }

  /** The user the verifier attaches for the request's token. */
  predicate Authenticates(req: Request, verify: string -> Option<AuthUser>, u: AuthUser) {
    HasAuthHeader(req) && verify(req.authorization.value) == Some(u)
  }

  /** A caller holding neither ADMIN nor EDITOR. */
  predicate NotStaff(u: AuthUser) {
    !HoldsRole(u, Admin) && !HoldsRole(u, Editor)
  }

  lemma HasStaffRoleIff(u: AuthUser)
    ensures HasSomeRole(StaffRoles, u) <==> HoldsRole(u, Admin) || HoldsRole(u, Editor)
  {
    if HoldsRole(u, Admin) { assert Admin in StaffRoles; }
    if HoldsRole(u, Editor) { assert Editor in StaffRoles; }
  }

  /** Categories and episodes: an anonymous GET passes both guards, unverified and with no user attached. */
  lemma AnonymousGetIsServed(c: Controller, req: Request, verify: string -> Option<AuthUser>)
    requires c == CategoriesController || c == EpisodesController
    requires Incoming(req) && req.verb == Get && !HasAuthHeader(req)
    ensures Admit(c, req, verify) == Ok(req)
    ensures Admit(c, req, verify).value.user.None?
  {
  }

  /** Categories and episodes: any verified caller, VIEWER included, passes on GET through the public-read bypass. */
  lemma AuthenticatedGetIsServed(c: Controller, req: Request, verify: string -> Option<AuthUser>, u: AuthUser)
    requires c == CategoriesController || c == EpisodesController
    requires req.verb == Get && Authenticates(req, verify, u)
    ensures Admit(c, req, verify) == Ok(req.(user := Some(u)))
  {
  }

  /** A public-read GET that carries a token the verifier rejects is refused. */
  lemma BadTokenRejectedEvenOnPublicRead(c: Controller, req: Request, verify: string -> Option<AuthUser>)
    requires HasAuthHeader(req) && verify(req.authorization.value).None?
    ensures Admit(c, req, verify) == Err(Unauthorized(UnauthorizedMessage))
  {
  }

  /** Without a token: any non-GET on every controller, and any method on programs and imports, is Unauthorized. */
  lemma AnonymousRejected(c: Controller, req: Request, verify: string -> Option<AuthUser>)
    requires !HasAuthHeader(req)
    requires req.verb != Get || c == ProgramsController || c == ImportsController
    ensures Admit(c, req, verify) == Err(Unauthorized(UnauthorizedMessage))
  {
  }

  /** Outside the public-read GET, a verified caller is admitted exactly when holding ADMIN or EDITOR. */
  lemma StaffOnlyOutsidePublicRead(c: Controller, req: Request, verify: string -> Option<AuthUser>, u: AuthUser)
    requires Authenticates(req, verify, u)
    requires req.verb != Get || c == ProgramsController || c == ImportsController
    ensures Admit(c, req, verify).Ok? <==> HoldsRole(u, Admin) || HoldsRole(u, Editor)
    ensures Admit(c, req, verify).Ok? ==> Admit(c, req, verify).value.user == Some(u)
    ensures NotStaff(u) ==> Admit(c, req, verify) == Err(Forbidden(ForbiddenResource))
  {
    HasStaffRoleIff(u);
  }

  /** Programs: a VIEWER is refused on every method, GET included; EDITOR and ADMIN are admitted on every method. */
  lemma ProgramsAreStaffOnly(req: Request, verify: string -> Option<AuthUser>, u: AuthUser)
    requires Authenticates(req, verify, u)
    ensures u.role == RoleList([RoleName(Viewer)]) ==> Admit(ProgramsController, req, verify) == Err(Forbidden(ForbiddenResource))
    ensures u.role == RoleList([RoleName(Editor)]) ==> Admit(ProgramsController, req, verify).Ok?
    ensures u.role == RoleList([RoleName(Admin)]) ==> Admit(ProgramsController, req, verify).Ok?
  {
    StaffOnlyOutsidePublicRead(ProgramsController, req, verify, u);
    RoleNameInjective(Viewer, Admin);
    RoleNameInjective(Viewer, Editor);
  }

  /** With no user attached, the serializer uses the anonymous group list. */
  lemma GuestsGetAnonymousProjection(c: Controller, req: Request, body: Value)
    requires Incoming(req) && Config(c).serializer.Some?
    ensures Respond(c, req, body) == SerializeResponse(Config(c).serializer.value, AnonymousGroups, body)
  {
  }

  /** Categories: an anonymous GET of one category receives its public fields and nothing else. */
  lemma GuestCategoryResponse(req: Request, verify: string -> Option<AuthUser>, m: Record)
    requires Incoming(req) && req.verb == Get && !HasAuthHeader(req)
    requires !IsPaginated(Obj(m))
    ensures Admit(CategoriesController, req, verify) == Ok(req)
    ensures Respond(CategoriesController, req, Obj(m)).fields.Keys
              <= {"id", "nameAr", "nameEn", "descriptionAr", "descriptionEn"}
  {
    GuestsGetAnonymousProjection(CategoriesController, req, Obj(m));
    GuestSeesPublicOnly(CategoryResponse, m);
  }

  /** Episodes: an anonymous GET never receives `status` or the timestamps, for one episode or for each of a page. */
  lemma GuestEpisodeResponse(req: Request, verify: string -> Option<AuthUser>, body: Value)
    requires Incoming(req) && req.verb == Get && !HasAuthHeader(req)
    ensures Admit(EpisodesController, req, verify) == Ok(req)
    ensures var out := Respond(EpisodesController, req, body);
            (body.Obj? && !IsPaginated(body) ==> "status" !in out.fields) &&
            (IsPaginated(body) ==> forall i :: 0 <= i < |out.fields["data"].items| && out.fields["data"].items[i].Obj? ==>
                                     "status" !in out.fields["data"].items[i].fields)
  {
    GuestsGetAnonymousProjection(EpisodesController, req, body);
    var out := Respond(EpisodesController, req, body);
    if body.Obj? && !IsPaginated(body) {
      GuestEpisodeIsPublicOnly(body.fields);
    }
    if IsPaginated(body) {
      var items := body.fields["data"].items;
      forall i | 0 <= i < |out.fields["data"].items| && out.fields["data"].items[i].Obj?
        ensures "status" !in out.fields["data"].items[i].fields
      {
        assert out.fields["data"].items[i] == SerializeObject(EpisodeResponse, AnonymousGroups, items[i]);
        GuestEpisodeIsPublicOnly(items[i].fields);
      }
    }
  }

  /** Categories and episodes: a VIEWER's GET is answered exactly as an anonymous GET. */
  lemma ViewerGetAnsweredAsGuest(c: Controller, req: Request, verify: string -> Option<AuthUser>, u: AuthUser, v: Value)
    requires c == CategoriesController || c == EpisodesController
    requires req.verb == Get && Authenticates(req, verify, u)
    requires u.role == RoleList([RoleName(Viewer)])
    ensures Admit(c, req, verify).Ok?
    ensures Respond(c, Admit(c, req, verify).value, v) == Respond(c, req.(authorization := None, user := None), v)
  {
    var authed := req.(user := Some(u));
    ResolveHighestRolePrefersAdminThenEditor([RoleName(Viewer)]);
    RoleNameInjective(Viewer, Admin);
    RoleNameInjective(Viewer, Editor);
    assert ResolveHighestRole(ClaimedRoles(authed.user)) == Some(Viewer);
    var d := Config(c).serializer.value;
    if IsPaginated(v) || v.Arr? {
      var items := if IsPaginated(v) then v.fields["data"].items else v.items;
      forall i | 0 <= i < |items|
        ensures SerializeObject(d, RoleGroups(Viewer), items[i]) == SerializeObject(d, AnonymousGroups, items[i])
      {
        ViewerSeesWhatGuestsSee(d, items[i]);
      }
      assert SerializeArray(d, RoleGroups(Viewer), items) == SerializeArray(d, AnonymousGroups, items);
    } else {
      ViewerSeesWhatGuestsSee(d, v);
    }
  }

  /** POST /imports: the handler delegates to createImportJob. */
  function CreateImport(req: Request, verify: string -> Option<AuthUser>, dto: CreateImportJobDto, freshId: string, now: Time): (r: Result<ImportJob>)
    ensures r.Ok? <==> Admit(ImportsController, req, verify).Ok?
    ensures r.Ok? ==> r.value == CreateImportJob(dto, freshId, now)
    ensures r.Err? ==> r.error == Admit(ImportsController, req, verify).error
  {
    match Admit(ImportsController, req, verify)
    case Err(e) => Err(e)
    case Ok(_) => Ok(CreateImportJob(dto, freshId, now))
  }

  /** An EDITOR or ADMIN POST returns a new PENDING job, unprojected; anyone else is refused. */
  lemma ImportPostByStaff(req: Request, verify: string -> Option<AuthUser>, u: AuthUser, dto: CreateImportJobDto, freshId: string, now: Time)
    requires req.verb == Post && Authenticates(req, verify, u)
    ensures HoldsRole(u, Admin) || HoldsRole(u, Editor) ==>
              CreateImport(req, verify, dto, freshId, now).Ok? &&
              CreateImport(req, verify, dto, freshId, now).value.status == Pending
    ensures NotStaff(u) ==> CreateImport(req, verify, dto, freshId, now) == Err(Forbidden(ForbiddenResource))
    ensures Config(ImportsController).serializer.None?
  {
    StaffOnlyOutsidePublicRead(ImportsController, req, verify, u);
  }
}

# content-platform core, modelled in Dafny

This project models the request pipeline and domain rules of the content-platform NestJS backend.

- **Access control.** The fixed role priority ADMIN > EDITOR > VIEWER and `resolveHighestRole`. The three guards: `JwtAuthGuard` with its public-read bypass, `AnonymousGuard` and `RolesGuard` with OR semantics. The request-scoped `UserContextService` and the middleware that fills it. Nest runs middleware before guards, so when the middleware runs, passport has not yet set `req.user`; the model states what the middleware does with whatever `req.user` holds at that point. The decorator metadata of the categories, episodes, programs and imports controllers, as a route table that feeds the guards.
- **Response shaping.** `RoleSerializerInterceptor`: role to group list, then a whitelist projection of paginated, array or object payloads through the Category, Program and Episode response DTOs. Each DTO is a static table of field to `@Expose` groups, with relation fields projected recursively.
- **CRUD.** `BaseCrudService` over a map-backed repository, with its create, update and delete hooks. The subclasses are `CategoriesService.applyVisibilityFilter`, the parent checks of `ProgramsService` and `EpisodesService`, and the episode publication rule (`publish`, `setPublishedAtOnCreate`, the `beforeUpdate` hook). `UsersService` adds email uniqueness, a single default role and a BadRequest for a missing user. The `User` entity carries the role predicates and password hashing.
- **Import jobs.** The import-job state machine PENDING → PROCESSING → COMPLETED, with FAILED reachable from every state except COMPLETED.
- **Authentication.** The newer `AuthService` (with `TokenService`), which the auth module provides (auth.module.ts:10, :82), and the older `AuthService` of `auth.service.ts`, which the auth controller imports and injects (auth.controller.ts:3, :17). No module provides the older class, so as wired the controller's dependency does not resolve; both services are modelled. `JwtStrategy.validate` and `PasswordService` (forgot, reset, change).
- **Validation.** The `Match` validator and the filter that translates validation messages.

Stateful code is written as classes:
- the repositories and `UsersService` hold a `map` of rows;
- `UserContextService` holds its nullable user;
- `Episode` and `User` are entities whose methods assign their fields.

Pure code is written as functions: the guards, the serializer, role resolution, the import transitions, token building, the validator and the filter. Methods are proved against those functions.

The following are function-valued parameters, never interpreted:
- bcrypt `hash` and `compare`;
- JWT `sign` and token verification;
- `i18n.t`.

The one property assumed of bcrypt is `compare(p, hash(p))` (`Users.Sound`). Lemmas that need it take it as a hypothesis.

The clock (`new Date()`) and generated ids (`randomUUID`, database-generated primary keys) are method parameters. Rows are plain records (`PlainValues.Record`), because `update` is `Object.assign` over whatever the request body holds.

Where the code and its comments disagree, the model follows the code:
- **`AuthUser.role`.** It is declared a string, but it holds the token's role array. It is modelled as a role list, or a value that is not a list.
- **`isAdmin()` and `isEditor()`.** `CategoriesService` calls these on the user context, but `UserContextService` does not define them. Here the model does not follow the code: as written, the call fails to type-check or raises a TypeError. The model substitutes the stored user's highest role (see `UserContext.UserContextService.IsAdmin/IsEditor` under "## Left out").
- **`applyVisibilityFilter`.** It is modelled as written, but no find of the base service calls it.
- **`EpisodesService` error key.** It throws `MESSAGES.ERRORS.PROGRAM_NOT_FOUND`, which `messages.ts` does not define. The message is a constructor parameter `programNotFound`.
- **Credential error in the newer `AuthService`.** Its `validateCredentials` throws the raw key `errors.INVALID_CREDENTIALS`, untranslated. The older service translates it.
- **Message language.** The i18n validation filter's fallback language is `en`, although its comment says Arabic.
- **`resetPassword` and the OTP.** It never looks at the OTP, although its comment says it verifies one. In the contract of `Passwords.PasswordService.ResetPassword`, the outcome depends only on the email and the store.
- **`USER_NOT_FOUND` in `updatePassword`.** The translation comes from `UsersService` (the same `I18nService` in the application), so the model uses `users.translate`.
- **Token lifetime.** `getAccessTokenExpiresIn` is typed as returning seconds, but auth.config.ts always supplies `auth.jwtExpiresIn` as a string (`JWT_EXPIRES_IN`, else `'1d'`). So the 86400 fallback is never taken and the login response's `expires_in` is that string.
- **TypeORM finds.** In every model of a find:
  - soft-deleted rows are skipped;
  - a `where` property whose value is `undefined` is dropped rather than matched.

## Model

| member | source | states |
|---|---|---|
| Roles.RoleName | src/common/enums/role.enum.ts:14-18 | each role's string value is one of "admin", "editor", "viewer" |
| Roles.RoleNameInjective | src/common/enums/role.enum.ts:14-18 | distinct roles have distinct string values, and equal values mean the same role |
| Roles.RoleNames | src/modules/auth/services/token.service.ts:52 | a role list becomes the list of its enum values, same length and order |
| Roles.RoleNamesNameHeldRoles | src/modules/users/entities/user.entity.ts:56-82 | a role is in a role list exactly when its value is among the list's values |
| Roles.Rank | src/common/constants/role-priority.ts:13 | a role's position in ROLE_PRIORITY is within the list and indexes that role |
| Roles.RolePriorityIsEnumeration | src/common/constants/role-priority.ts:13 | ROLE_PRIORITY has length 3, lists ADMIN, EDITOR, VIEWER at 0, 1, 2, contains every role and has no duplicate |
| Roles.OutranksIsStrictTotal | src/common/constants/role-priority.ts:13 | the priority order is irreflexive, transitive, and for distinct roles exactly one outranks the other |
| Roles.FindHeld | src/common/utils/resolve-highest-role.ts:18 | `find` returns a held role with no held role before it in the list, and misses exactly when no listed role is held |
| Roles.ResolveHighestRole | src/common/utils/resolve-highest-role.ts:14-18 | null for an undefined or empty list; a result is held and no held role outranks it; for a non-empty list, null exactly when no known role is held |
| Roles.ResolveHighestRolePrefersAdminThenEditor | src/common/utils/resolve-highest-role.ts:18 | ADMIN whenever "admin" is held; EDITOR whenever "editor" but not "admin" is held |
| Roles.ResolveHighestRoleIgnoresOrder | src/common/utils/resolve-highest-role.ts:18 | two lists holding the same strings, in any order or repetition, resolve alike |
| Roles.RoleGroupsChain | src/common/constants/role-groups.map.ts:13-16 | groups(VIEWER) ⊆ groups(EDITOR) ⊆ groups(ADMIN); each contains 'public' and strictly more than the anonymous `['public']` |
| Roles.RoleGroupsMembership | src/common/constants/role-groups.map.ts:14-16 | 'admin' belongs to ADMIN only, 'editor' to ADMIN and EDITOR, 'user' to all three roles |
| Roles.RoleGroupsMonotone | src/common/constants/role-groups.map.ts:14-16 | a higher role's groups include every group of a lower role |
| Gates.PassportAuthenticate | src/common/guards/jwt-auth.guard.ts:80 | the token check succeeds exactly with a header the verifier accepts, and then attaches the verified user; otherwise Unauthorized |
| Gates.JwtAuthGuard | src/common/guards/jwt-auth.guard.ts:38-80 | a PublicRead GET without a header is allowed unverified with `request.user` untouched; every other request succeeds exactly when the verifier accepts its header |
| Gates.JwtAuthGuardDependsOnlyOnItsInputs | src/common/guards/jwt-auth.guard.ts:38-80 | the verdict and the attached user depend only on the route flag, the method, the header and the verifier's answer |
| Gates.AnonymousGuard | src/common/guards/anonymous.guard.ts:33-42 | never false; Forbidden 'Already authenticated' exactly when a truthy Authorization header is sent |
| Gates.AnonymousGuardIgnoresIdentity | src/common/guards/anonymous.guard.ts:35-41 | any non-empty header is refused whatever the user; an empty header counts as none; `request.user` plays no part |
| Gates.RolesGuard | src/common/guards/roles.guard.ts:44-93 | allow without roles metadata; allow a PublicRead GET; otherwise allow exactly when a user is present whose role list holds some required role |
| Gates.RolesGuardOrSemantics | src/common/guards/roles.guard.ts:93 | required {ADMIN} refuses an EDITOR, required {ADMIN, EDITOR} admits one, an empty required list admits nobody |
| Gates.RolesGuardMonotone | src/common/guards/roles.guard.ts:93 | adding roles to a user never turns an allow into a deny |
| UserContext.UserContextService.constructor | src/common/services/user-context.service.ts:31 | a new context holds no user |
| UserContext.UserContextService.SetUser | src/common/services/user-context.service.ts:46-48 | the stored user becomes the argument, overwriting any earlier one |
| UserContext.UserContextService.GetUser | src/common/services/user-context.service.ts:62-68 | raises 'UserContext not initialized' while no user is stored, else returns it; changes nothing |
| UserContext.UserContextService.GetUserId | src/common/services/user-context.service.ts:82-84 | the stored user's id, raising exactly when `getUser` raises |
| UserContext.UserContextService.IsAdmin | src/modules/categories/categories.service.ts:86 | true exactly when the stored user's highest role resolves to ADMIN |
| UserContext.UserContextService.IsEditor | src/modules/categories/categories.service.ts:86 | an editor who is not an admin is exactly a user whose highest role resolves to EDITOR |
| UserContext.ContextLifecycle | src/common/services/user-context.service.ts:46-68 | a fresh context raises on read; after two `setUser` calls the last one is returned |
| UserContext.UserContextMiddleware.Use | src/common/middlewares/user-context.middleware.ts:61-74 | with `req.user` the context holds it afterwards; without, the context is unchanged; `next` is called once |
| RoleSerializer.ResponseGroups | src/common/interceptors/role-serializer.interceptor.ts:73-84 | ROLE_GROUPS of the highest resolved role, else `['public']`; always contains 'public' |
| RoleSerializer.VisibleIffSharedGroup | src/common/interceptors/role-serializer.interceptor.ts:182-187 | a field is exposed exactly when one of its groups is requested |
| RoleSerializer.Project | src/common/interceptors/role-serializer.interceptor.ts:182-187 | only the DTO fields the groups expose and the object has are kept; plain fields unchanged, relation fields projected through their DTO |
| RoleSerializer.SerializeObject | src/common/interceptors/role-serializer.interceptor.ts:182-187 | an object keeps exactly the exposed DTO fields it has; an array keeps its length; any other value is returned as it is |
| RoleSerializer.SerializeArray | src/common/interceptors/role-serializer.interceptor.ts:170-172 | same length and order; element i is `serializeObject` of element i |
| RoleSerializer.SerializePaginated | src/common/interceptors/role-serializer.interceptor.ts:156-159 | every property other than `data` is kept; `data` is serialized element-wise |
| RoleSerializer.SerializeResponse | src/common/interceptors/role-serializer.interceptor.ts:116-124 | paginated first, then array, then object |
| RoleSerializer.Intercept | src/common/interceptors/role-serializer.interceptor.ts:73-99 | the response is serialized with the groups of the user's highest role, or `['public']` when none resolves; a page keeps its properties and an array its length |
| ResponseDtos.Spec | src/modules/episodes/dto/episode.response.dto.ts:32-174 | every tagged field names at least one group; a relation field names a DTO of smaller nesting depth |
| ResponseDtos.DeclaredFields | src/modules/programs/dto/program.response.dto.ts:31-125 | a name is declared exactly when it has a tag |
| ResponseDtos.TagsAreDisjoint | src/modules/categories/dto/category.response.dto.ts:30-115 | each field carries exactly one of the three tags |
| ResponseDtos.RelationsArePublic | src/modules/programs/dto/program.response.dto.ts:99-101 | the relation fields `category` and `program` are public and the only nested ones |
| ResponseDtos.NoFieldTaggedUser | src/modules/categories/dto/category.response.dto.ts:30-115 | no field of the three DTOs is tagged 'user' |
| SerializerProperties.VisibleInClosedForm | src/common/constants/role-groups.map.ts:14-16 | which tags each role's group list and the anonymous list expose |
| SerializerProperties.VisibleFieldsByTag | src/common/interceptors/role-serializer.interceptor.ts:182-187 | guests and VIEWER see the public fields, EDITOR adds the editor/admin ones, ADMIN sees every declared field |
| SerializerProperties.ViewerExposureIsGuestExposure | src/common/constants/role-groups.map.ts:16 | a VIEWER is exposed exactly the fields a guest is, in every DTO |
| SerializerProperties.CategoryFieldsByRole | src/modules/categories/dto/category.response.dto.ts:30-115 | guests see {id, nameAr, nameEn, descriptionAr, descriptionEn}; EDITOR and ADMIN see all eight fields |
| SerializerProperties.CategoryStaffFields | src/modules/categories/dto/category.response.dto.ts:90-115 | `isActive` and the timestamps are exposed exactly when 'editor' or 'admin' is requested |
| SerializerProperties.ProgramFieldsByRole | src/modules/programs/dto/program.response.dto.ts:31-125 | guests, VIEWER and EDITOR see the seven public fields; ADMIN adds `createdAt` and `updatedAt` |
| SerializerProperties.EpisodeFieldsByRole | src/modules/episodes/dto/episode.response.dto.ts:32-174 | guests see ten fields, EDITOR adds `status`, ADMIN adds `status` and the timestamps |
| SerializerProperties.SameExposureSameOutput | src/common/interceptors/role-serializer.interceptor.ts:182-187 | group lists exposing the same fields of every DTO produce the same output for every value |
| SerializerProperties.ViewerSeesWhatGuestsSee | src/common/interceptors/role-serializer.interceptor.ts:73-84 | a VIEWER receives exactly what a guest receives, for every payload |
| SerializerProperties.SerializeMonotone | src/common/interceptors/role-serializer.interceptor.ts:182-187 | more groups never remove a property, at any depth |
| SerializerProperties.HigherRoleSeesMore | src/common/interceptors/role-serializer.interceptor.ts:84 | a higher role's response holds everything a lower role's or a guest's response holds |
| SerializerProperties.SerializeIdempotent | src/common/interceptors/role-serializer.interceptor.ts:182-187 | serializing an already serialized value with the same groups changes nothing |
| SerializerProperties.GuestSeesPublicOnly | src/common/interceptors/role-serializer.interceptor.ts:182-187 | a guest's copy holds exactly the object's public fields; no editor/admin or admin field |
| SerializerProperties.GuestGetsRelation | src/modules/programs/dto/program.response.dto.ts:99-101 | a guest receives a relation field, projected through the related DTO |
| SerializerProperties.GuestProgramCategoryIsPublicOnly | src/modules/programs/dto/program.response.dto.ts:99-101 | a guest's program carries a nested category without `isActive` or timestamps |
| SerializerProperties.GuestEpisodeIsPublicOnly | src/modules/episodes/dto/episode.response.dto.ts:148-150 | a guest's episode has no `status` or timestamps, and its program is projected as a guest's program |
| SerializerProperties.GuestProgramHidesTimestamps | src/modules/programs/dto/program.response.dto.ts:112-125 | a guest never sees a program's timestamps |
| Routes.Config | src/modules/categories/categories.controller.ts:36-39 | every controller requires ADMIN or EDITOR; only categories and episodes are PublicRead; only they declare a serializer, Category and Episode |
| Routes.Admit | src/modules/categories/categories.controller.ts:37 | a request passes exactly when JwtAuthGuard succeeds and RolesGuard allows the request it produces; a refusal is Unauthorized or Forbidden |
| Routes.Respond | src/modules/episodes/episodes.controller.ts:31 | the handler's result is projected by the declared DTO with the caller's groups, or returned as it is |
| Routes.AnonymousGetIsServed | src/modules/episodes/episodes.controller.ts:28-30 | an anonymous GET on categories or episodes passes both guards, with no user attached |
| Routes.AuthenticatedGetIsServed | src/modules/categories/categories.controller.ts:36-38 | a verified caller of any role, VIEWER included, passes on GET |
| Routes.BadTokenRejectedEvenOnPublicRead | src/common/guards/jwt-auth.guard.ts:65-80 | a token the verifier rejects is Unauthorized even on a public-read GET |
| Routes.AnonymousRejected | src/modules/programs/programs.controller.ts:33-34 | without a token, any non-GET and any programs or imports request is Unauthorized |
| Routes.StaffOnlyOutsidePublicRead | src/common/guards/roles.guard.ts:85-93 | outside a public-read GET, a verified caller passes exactly when holding ADMIN or EDITOR; anyone else is Forbidden |
| Routes.ProgramsAreStaffOnly | src/modules/programs/programs.controller.ts:33-35 | a VIEWER is refused on programs for every method, GET included; EDITOR and ADMIN pass |
| Routes.GuestsGetAnonymousProjection | src/common/interceptors/role-serializer.interceptor.ts:73-84 | with no user attached the response is projected with `['public']` |
| Routes.GuestCategoryResponse | src/modules/categories/dto/category.response.dto.ts:30-79 | an anonymous GET of one category receives its public fields only |
| Routes.GuestEpisodeResponse | src/modules/episodes/dto/episode.response.dto.ts:113-114 | an anonymous GET of an episode, or of a page of them, never receives `status` |
| Routes.ViewerGetAnsweredAsGuest | src/common/constants/role-groups.map.ts:16 | a VIEWER's GET on categories or episodes is answered exactly as an anonymous GET |
| Routes.CreateImport | src/modules/imports/imports.controller.ts:41-44 | POST /imports creates a job exactly when both guards pass, else returns their error |
| Routes.ImportPostByStaff | src/modules/imports/imports.controller.ts:18-44 | an EDITOR or ADMIN POST yields a PENDING job, unprojected; anyone else is Forbidden |
| Imports.CreateImportJob | src/modules/imports/imports.service.ts:26-34 | status PENDING, `source` and `payload` copied, no `error` or `processedAt` |
| Imports.MarkAsProcessing | src/modules/imports/imports.service.ts:48-57 | succeeds exactly from PENDING, yields PROCESSING and keeps every other field |
| Imports.MarkAsCompleted | src/modules/imports/imports.service.ts:71-81 | succeeds exactly from PROCESSING, yields COMPLETED with `processedAt` set |
| Imports.MarkAsFailed | src/modules/imports/imports.service.ts:99-110 | succeeds from every state but COMPLETED (FAILED included) and sets `error` and `processedAt` |
| Imports.ApplyFollowsLifecycle | src/modules/imports/imports.service.ts:48-110 | some transition succeeds exactly when the lifecycle relation allows a move from the job's state |
| Imports.Apply | src/modules/imports/imports.service.ts:48-110 | a successful call moves along the lifecycle relation and keeps `id`, `source`, `payload` and `createdAt` |
| Imports.CompletedIsTerminal | src/modules/imports/imports.service.ts:48-110 | all three transitions raise on a COMPLETED job |
| Imports.Run | src/modules/imports/imports.service.ts:48-110 | an empty run returns the job; any successful run of transitions keeps `id`, `source`, `payload` and `createdAt` |
| Imports.FailedStaysFailed | src/modules/imports/imports.service.ts:99-110 | once FAILED, a successful run ends FAILED |
| Imports.CompletedFromProcessing | src/modules/imports/imports.service.ts:71-81 | from PROCESSING, the only successful run ending COMPLETED is one `markAsCompleted` |
| Imports.CompletedOnlyViaProcessing | src/modules/imports/imports.service.ts:26-81 | a new job reaches COMPLETED only by `markAsProcessing` then `markAsCompleted`, keeping the created job's fields |
| Crud.ReferenceWhere | src/modules/programs/programs.service.ts:87-101 | a row matches the reference check's `where` exactly when it is active, not deleted and, if an id is given, has that id |
| Crud.ReferenceCheckFindsTheRow | src/modules/episodes/episodes.service.ts:86-100 | over id-keyed rows, the check finds a row exactly when the named row exists, is active and is not soft-deleted |
| Crud.UndefinedReferenceMatchesAnyUsable | src/modules/programs/programs.service.ts:87-101 | with the id undefined, the check finds a row exactly when any active, undeleted row exists |
| Crud.Assign | src/common/services/base-crud.service.ts:154 | `Object.assign`: the keys of both; every dto key overwrites, every other field is kept |
| Crud.DefaultHooks | src/common/services/base-crud.service.ts:63-174 | the default hooks do nothing |
| Crud.Found | src/common/services/base-crud.service.ts:110-120 | NotFound 'Resource not found' exactly when no live row has the id, else that row |
| Crud.UpdateOutcome | src/common/services/base-crud.service.ts:151-156 | NotFound before the hook runs; a failing hook is the error; otherwise the hooked entity merged with the dto |
| Crud.RemoveOutcome | src/common/services/base-crud.service.ts:186-190 | NotFound without calling the hook for a missing id; otherwise the hook's verdict |
| Crud.PlainUpdateIsMerge | src/common/services/base-crud.service.ts:138-156 | with the default hook, update is NotFound or the stored row merged with the dto |
| Crud.UpdateOverwritesOnlyDtoKeys | src/common/services/base-crud.service.ts:153-155 | after a successful update, dto keys hold the dto's values and other fields the hooked entity's |
| Crud.Repository.Inserted | src/common/entities/base.entity.ts:36-51 | the saved row: column defaults, then the entity after its insert listener, keyed by the fresh id |
| Crud.Repository.FindOneWhere | src/common/services/base-crud.service.ts:110-120 | returns a stored live row matching `where`, and none exactly when no such row exists |
| Crud.Repository.Insert | src/common/services/base-crud.service.ts:81-82 | the inserted row is stored under the fresh id, nothing else changes, and rows stay keyed by their id |
| Crud.Repository.Put | src/common/services/base-crud.service.ts:155 | the entity is stored at its id, nothing else changes; an entity carrying that id keeps rows keyed by their id |
| Crud.Repository.Delete | src/common/services/base-crud.service.ts:189 | exactly that id is gone and rows stay keyed by their id |
| Crud.CrudService.Create | src/common/services/base-crud.service.ts:79-83 | a failing `beforeCreate` writes nothing; otherwise the inserted row is returned and stored under the fresh id |
| Crud.CrudService.FindOne | src/common/services/base-crud.service.ts:110-120 | the row, or NotFound 'Resource not found'; the store is unchanged |
| Crud.CrudService.Update | src/common/services/base-crud.service.ts:151-156 | the result is the update outcome on the old store; the store changes only on success, at that id; a dto without `id` and a key-keeping hook keep rows keyed by their id |
| Crud.CrudService.Remove | src/common/services/base-crud.service.ts:186-190 | exactly that id is removed when the hook passes; otherwise nothing changes |
| Categories.CategoriesService.ApplyVisibilityFilter | src/modules/categories/categories.service.ts:83-95 | admin or editor: `where` unchanged; anyone else: `isActive = true` and `deletedAt IS NULL` forced, all other keys kept |
| Categories.VisibilityFilterIdempotent | src/modules/categories/categories.service.ts:83-95 | filtering twice equals filtering once |
| Categories.FilteredFindSeesOnlyUsableRows | src/modules/categories/categories.service.ts:90-94 | for other callers, a row passes the filtered `where` exactly when it is usable and passes the caller's other conditions |
| Categories.StaffFilterAgreesWithSerializer | src/modules/categories/categories.service.ts:86 | the callers the filter treats as staff are exactly those the serializer gives the 'editor' group |
| Programs.ProgramsService.ValidateCategory | src/modules/programs/programs.service.ts:87-101 | passes exactly when the category find succeeds; else BadRequest CATEGORY_NOT_FOUND; writes nothing |
| Programs.ProgramsService.Create | src/modules/programs/programs.service.ts:114-117 | as written, a failed check of `dto.category` is BadRequest with the store unchanged; otherwise the base create |
| Programs.ProgramsService.Update | src/modules/programs/programs.service.ts:131-137 | as written, a truthy `dto.category` is checked before the NotFound check; otherwise the base update; a dto without `id` keeps rows keyed by their id |
| Programs.ValidatedBodySkipsCategoryCheck | src/modules/programs/programs.service.ts:115 | for a validated body the create check passes whenever any usable category exists, and update never checks |
| Programs.InactiveCategoryAccepted | src/modules/programs/dto/create-program.dto.ts:47 | a validated body naming a stored but inactive category is accepted by the check as written and refused by the corrected one |
| Programs.ProgramsService.CreateCorrected | src/modules/programs/programs.service.ts:114-117 | create checking `categoryId`; a failed check is BadRequest with the store unchanged |
| Programs.ProgramsService.UpdateCorrected | src/modules/programs/programs.service.ts:131-137 | update checking a truthy `categoryId` before the NotFound check; a dto without `id` keeps rows keyed by their id |
| Programs.CorrectedCheckFindsTheCategory | src/modules/programs/programs.service.ts:87-101 | the corrected check passes exactly when the named category is stored, active and not soft-deleted |
| Episodes.StatusName | src/modules/episodes/enums/episode-status.enum.ts:9-13 | each status's column value is one of "draft", "published", "archived", and reading it back from a row's `status` gives that status |
| Episodes.StatusNameInjective | src/modules/episodes/enums/episode-status.enum.ts:9-13 | distinct statuses have distinct column values |
| Episodes.PublishRule | src/modules/episodes/entities/episode.entity.ts:65-72 | the status becomes PUBLISHED; a published episode is unchanged; any other gets `publishedAt = now` |
| Episodes.OnCreateRule | src/modules/episodes/entities/episode.entity.ts:83-88 | only a published episode without `publishedAt` is stamped; nothing else changes |
| Episodes.PublishIdempotent | src/modules/episodes/entities/episode.entity.ts:66-68 | publishing twice equals publishing once |
| Episodes.Episode.Publish | src/modules/episodes/entities/episode.entity.ts:65-72 | the new status and `publishedAt` follow the publication rule; no other field changes |
| Episodes.Episode.SetPublishedAtOnCreate | src/modules/episodes/entities/episode.entity.ts:83-88 | `publishedAt` follows the on-create rule and is never overwritten |
| Episodes.PublishTwice | src/modules/episodes/entities/episode.entity.ts:66-68 | a second `publish` changes nothing |
| Episodes.PublishRecord | src/modules/episodes/entities/episode.entity.ts:65-72 | the publication rule on a stored row; other columns are kept |
| Episodes.OnCreateRecord | src/modules/episodes/entities/episode.entity.ts:83-88 | the on-create rule on a row about to be inserted |
| Episodes.PublishRecordFollowsRule | src/modules/episodes/entities/episode.entity.ts:65-72 | the row-level publish agrees with the publication rule |
| Episodes.OnCreateRecordFollowsRule | src/modules/episodes/entities/episode.entity.ts:83-88 | the row-level insert listener agrees with the on-create rule |
| Episodes.BeforeUpdate | src/modules/episodes/episodes.service.ts:136-140 | `publish` is applied exactly when `dto.status` is PUBLISHED; otherwise the entity is unchanged |
| Episodes.EpisodeHooks | src/modules/episodes/episodes.service.ts:136-140 | the episode service overrides only `beforeUpdate`, with the publish rule; create and delete hooks pass |
| Episodes.EpisodeHookKeepsId | src/modules/episodes/episodes.service.ts:136-140 | the publish hook never changes an entity's `id` |
| Episodes.PublishingUpdateSetsPublication | src/modules/episodes/episodes.service.ts:136-160 | after a successful update with status PUBLISHED, the row is PUBLISHED with `publishedAt` set |
| Episodes.UpdateKeepsStamped | src/modules/episodes/episodes.service.ts:136-160 | updates keep "every published row has a `publishedAt`" |
| Episodes.OtherUpdateKeepsPublishedAt | src/common/services/base-crud.service.ts:154 | updating to DRAFT or ARCHIVED does not clear `publishedAt` |
| Episodes.RepublishKeepsPublishedAt | src/modules/episodes/entities/episode.entity.ts:66-68 | updating a published episode to PUBLISHED keeps its `publishedAt` |
| Episodes.EpisodesService.ValidateProgram | src/modules/episodes/episodes.service.ts:86-100 | passes exactly when the program find succeeds, else BadRequest; writes nothing |
| Episodes.EpisodesService.Create | src/modules/episodes/episodes.service.ts:115-118 | a missing, inactive or deleted program is BadRequest with the store unchanged; a created published episode has `publishedAt` |
| Episodes.EpisodesService.CreatedPublishedHasTime | src/modules/episodes/entities/episode.entity.ts:83-88 | an inserted published episode carries `publishedAt` |
| Episodes.EpisodesService.Update | src/modules/episodes/episodes.service.ts:155-160 | `dto.program`, when given, is checked before the NotFound check; otherwise the base update with the publish hook; a validated body keeps rows keyed by their id and every published row stamped |
| Users.EffectiveRole | src/modules/users/users.service.ts:165 | `dto.role ?? VIEWER` |
| Users.User.Load | src/modules/users/entities/user.entity.ts:36-46 | a loaded entity holds the row's columns and has no profile |
| Users.User.VerifyPassword | src/modules/users/entities/user.entity.ts:92-94 | bcrypt's verdict; a password always verifies against its own hash |
| Users.User.SetPassword | src/modules/users/entities/user.entity.ts:107-109 | only `password` changes, to the hash of the argument |
| Users.User.HashPassword | src/modules/users/entities/user.entity.ts:120-125 | a non-empty password is rehashed; an empty one is left |
| Users.SetThenVerify | src/modules/users/entities/user.entity.ts:92-109 | after `setPassword(p)`, `verifyPassword(p)` holds |
| Users.User.IsAdmin | src/modules/users/entities/user.entity.ts:56-58 | true exactly when the value 'admin' is among the user's role values, as a token carries them |
| Users.User.IsEditor | src/modules/users/entities/user.entity.ts:68-70 | true exactly when the value 'editor' is among the user's role values |
| Users.User.IsViewer | src/modules/users/entities/user.entity.ts:80-82 | true exactly when the value 'viewer' is among the user's role values |
| Users.RolePredicatesIndependent | src/modules/users/entities/user.entity.ts:56-82 | a user can satisfy several role predicates at once |
| Users.CreatedRow | src/modules/users/users.service.ts:203-206 | the saved row has the fresh id, the input's name and email, the hashed password and the single role `[effectiveRole]` |
| Users.InsertKeepsEmailsUnique | src/modules/users/users.service.ts:176-206 | inserting an email no row has keeps emails unique |
| Users.UsersService.FindById | src/modules/users/users.service.ts:93-108 | BadRequest USER_NOT_FOUND exactly when no findable row has the id; else a fresh entity of that row |
| Users.UsersService.FindUserByEmail | src/modules/users/users.service.ts:121-131 | none exactly when no findable row has the email; else a fresh entity of such a row |
| Users.UsersService.FindActiveUserByEmail | src/modules/users/users.service.ts:141-143 | only an active, not soft-deleted user is returned |
| Users.UsersService.Create | src/modules/users/users.service.ts:155-208 | a live duplicate email is BadRequest USER_ALREADY_EXISTS with the store unchanged; otherwise one row with role `[dto.role ?? VIEWER]` and the given or empty profile; emails stay unique |
| Users.UsersService.CreateAdmin | src/modules/users/users.service.ts:222-224 | `create` with the role forced to ADMIN |
| Users.UsersService.CreateEditor | src/modules/users/users.service.ts:238-240 | `create` with the role forced to EDITOR |
| Users.UsersService.CreateViewer | src/modules/users/users.service.ts:253-255 | `create` with the role forced to VIEWER |
| Auth.BuildJwtPayload | src/modules/auth/services/token.service.ts:47-60 | as written, TypeError exactly when the user has no profile; otherwise `sub = id`, name, email and roles copied, and the profile snapshot |
| Auth.BuildJwtPayloadCorrected | src/modules/auth/services/token.service.ts:47-60 | `sub = id`, name, email and roles copied, and the profile exactly as loaded |
| Auth.AccessTokenExpiresIn | src/modules/auth/services/token.service.ts:70-72 | the configured value as it is, else 86400 seconds |
| Auth.ConfiguredJwtExpiresIn | src/config/auth.config.ts:20 | the non-empty JWT_EXPIRES_IN value, else '1d'; never empty |
| Auth.LoadedConfigExpiryIsASpan | src/config/auth.config.ts:20 | with the configuration loaded, the lifetime is a string span, '1d' without the variable, and never the 86400-second fallback |
| Auth.GenerateAccessToken | src/modules/auth/services/token.service.ts:82-90 | fails exactly when the payload throws; otherwise signs the payload with the expiry it also returns |
| Auth.GenerateAccessTokenCorrected | src/modules/auth/services/token.service.ts:82-90 | signs the corrected payload with the expiry it also returns |
| Auth.Validate | src/modules/auth/strategies/jwt.strategy.ts:102-110 | total; `id = sub`; name, email, role and profile copied |
| Auth.PayloadRoundTrip | src/modules/auth/strategies/jwt.strategy.ts:102-110 | for a user with a profile, validating the built payload gives back id, name, email, roles and profile |
| Auth.CorrectedPayloadRoundTrip | src/modules/auth/strategies/jwt.strategy.ts:102-110 | validating the corrected payload gives back every user's id, name, email, roles and profile |
| Auth.RoundTripKeepsRoles | src/modules/auth/strategies/jwt.strategy.ts:107 | the validated identity holds a role exactly when the user does |
| Auth.LoginResponseFor | src/modules/auth/services/auth.service.ts:78-89 | `token_type` 'Bearer', the token's `expires_in`, and a user of id, name, email and role only |
| Auth.AuthService.ValidateCredentials | src/modules/auth/services/auth.service.ts:58-66 | unknown email, inactive or deleted user and wrong password give the same BadRequest INVALID_CREDENTIALS; else the user with that email |
| Auth.AuthService.Login | src/modules/auth/services/auth.service.ts:76-90 | as written, bad credentials give the BadRequest and good ones a TypeError: no call returns a token |
| Auth.AuthService.LoginCorrected | src/modules/auth/services/auth.service.ts:76-90 | bad credentials give the BadRequest and no token; good ones a Bearer response with the configured expiry and the stored user's id, name, email and roles |
| Auth.LegacyAuthService.ValidateCredentials | src/modules/auth/auth.service.ts:97-111 | only active, undeleted users match; a missing user and a wrong password give the same Unauthorized INVALID_CREDENTIALS |
| Auth.LegacyAuthService.Login | src/modules/auth/auth.service.ts:72-85 | only `accessToken`: the signature of `sub = id` with the stored name, email and roles; none on bad credentials |
| Auth.LegacyPayload | src/modules/auth/auth.service.ts:75-80 | `sub = id`, name, email and roles copied, no profile |
| Auth.LegacyRoundTrip | src/modules/auth/strategies/jwt.strategy.ts:102-110 | a legacy token validates back to the stored id, email and roles, with no profile |
| Passwords.PasswordService.ForgotPassword | src/modules/auth/services/password.service.ts:59-69 | the same success message whether or not the email is known; nothing changes |
| Passwords.PasswordService.ResetPassword | src/modules/auth/services/password.service.ts:84-98 | Unauthorized EMAIL_NOT_FOUND exactly when no active user has the email; otherwise the loaded user gets the new hash; the OTP plays no part |
| Passwords.PasswordService.ResetPasswordCorrected | src/modules/auth/services/password.service.ts:84-98 | the same email check and error; on success the user's row is stored with the new hash, the store stays valid, and it accepts the new password |
| Passwords.PasswordService.UpdatePassword | src/modules/auth/services/password.service.ts:111-156 | as written: USER_NOT_FOUND first; a wrong current password is INVALID_CURRENT_PASSWORD with the loaded password untouched; else the loaded user gets `hash(newPassword)` and the store keeps the old hash |
| Passwords.ChangeIsNotPersisted | src/modules/auth/services/password.service.ts:152 | an input where the change is reported but the stored hash still refuses the new password |
| Passwords.PasswordService.UpdatePasswordCorrected | src/modules/auth/services/password.service.ts:111-156 | the same checks and errors; on success the new hash is stored, emails stay unique, and the store accepts the new password |
| Validators.StrictEqualsSymmetric | src/common/validators/match.validator.ts:30 | `===` is symmetric |
| Validators.StrictEquals | src/common/validators/match.validator.ts:30 | `===` holds exactly for equal primitives or two undefined values |
| Validators.MatchValidate | src/common/validators/match.validator.ts:24-31 | `Match` passes exactly when the value equals the related property's and is a primitive or undefined |
| Validators.MatchUsesFirstConstraint | src/common/validators/match.validator.ts:25-28 | only the first constraint names the compared property |
| Validators.MatchSymmetric | src/common/validators/match.validator.ts:24-31 | matching `confirm` against `password` agrees with the reverse |
| Validators.MatchIsStrict | src/common/validators/match.validator.ts:30 | "1" does not match 1, undefined does not match null, equal strings match |
| Validators.Language | src/common/filters/i18n-validation.filter.ts:105 | the Accept-Language value, else 'en' |
| Validators.Messages | src/common/filters/i18n-validation.filter.ts:116-118 | a string becomes a one-element list; a list is kept |
| Validators.TranslateAll | src/common/filters/i18n-validation.filter.ts:129-131 | element-wise translation in order, same length |
| Validators.Catch | src/common/filters/i18n-validation.filter.ts:47-148 | status 400; every other property kept; `message` replaced by the translated list |
| Validators.CatchMessageCount | src/common/filters/i18n-validation.filter.ts:116-118 | one message for a string; n messages for a list of n |
| Validators.CatchDefaultsToEnglish | src/common/filters/i18n-validation.filter.ts:105 | with no Accept-Language the messages are translated to 'en' |
| Validators.CatchNormalisesSingleMessage | src/common/filters/i18n-validation.filter.ts:116-118 | a string message and the one-element list holding it get the same reply |

## Left out

- `BaseCrudService.findAll` and pagination: a paged query has no rule beyond the projection, which the serializer part models.
- `createdAt`, `updatedAt` and the other column defaults: they are set by the database. The repository applies only `isActive: true` and, for episodes, `status: 'draft'`.
- Foreign keys: `categoryId` of a program and `program` of an episode are non-nullable many-to-one columns, so the database refuses a row naming a missing parent. The repository stores such a row; the model's stores are not constrained by them.
- Crud.CrudService.Update: a dto carrying `id` would be stored under the old key with the new id, while TypeORM's `save` would write the row the new id names. No body declares `id`, and the validation pipe (`whitelist` with `forbidNonWhitelisted`) refuses a body carrying any undeclared property with a 400, so key preservation is promised only for a dto without `id`.
- Passwords.PasswordService.ResetPasswordCorrected: it saves the new hash but, like the original, checks no OTP; the source has no OTP storage to check against.
- Persistence of relations: no relation declares a save cascade. A program's category and an episode's program are written only as their foreign-key column. `User` declares no `profile` relation, so the profile the users service builds is a plain property of the returned entity and is never saved. The profile's `onDelete: 'CASCADE'` delete rule is not modelled.
- UserContext.UserContextService.IsAdmin/IsEditor: `UserContextService` defines neither, so `applyVisibilityFilter` as written has no defined behaviour: it fails to type-check, or raises a TypeError at run time. The model substitutes membership of ADMIN (resp. EDITOR) in the stored user's role list, so `IsAdmin` holds exactly when the highest role resolves to ADMIN, and `IsEditor` without `IsAdmin` exactly when it resolves to EDITOR.
- bcrypt's salt and cost, the JWT signature and verification, and the i18n catalogue: they are function parameters.
- Asynchrony: every `await` is sequential per request, and the model has no interleaving.
- The mailer and OTP storage: the source has neither.
- Users.User.VerifyPassword: states only that a password verifies against its own hash. Nothing is assumed that rules out collisions.
- Gates.JwtAuthGuard: Passport's token extraction is reduced to "a non-empty Authorization header whose value the verifier accepts". The header's `Bearer` scheme is not parsed.
- Validators.StrictEquals: arrays, objects and dates never compare equal. The model has no references; two properties of a parsed body never share one. NaN is not modelled, because numbers are integers.
- Validators.Language: a header given as an array of values, which `toString` would join, is not modelled.
- RoleSerializer.ResponseGroups: a role claim that is not a list resolves to no role, so the caller gets `['public']`. The source's `includes` on a string would test substrings. RolesGuard refuses such a claim, and that part is modelled exactly.
- The remaining controllers (auth, users, jobs, searches) and the controller factory: only the decorator metadata of the four content controllers is modelled.

## Findings

| source | as written | input that shows it | evidently intended | confidence | as-written member | corrected member |
|---|---|---|---|---|---|---|
| src/modules/programs/programs.service.ts:115 | `create` and `update` read `dto.category`. The validated body has `categoryId` (create-program.dto.ts:47), and the validation pipe refuses a body carrying any undeclared property (400), so no accepted body has `category`. With `category` undefined the find drops the id condition. | categories `{c1: active, c2: inactive}`, body `{titleAr: "t", categoryId: "c2", isActive: true}`: the check passes and the program is stored under the inactive category (a `categoryId` naming no row also passes the check, but the foreign key then refuses the insert) | check the category named by `categoryId` | high, not executed | Programs.ProgramsService.Create, Programs.InactiveCategoryAccepted | Programs.ProgramsService.CreateCorrected, Programs.CorrectedCheckFindsTheCategory |
| src/modules/auth/services/token.service.ts:53-58 | `buildJwtPayload` reads `user.profile.avatar`. User declares no profile relation, so a loaded user's `profile` is undefined and the read throws. | any active user with the right password: `login` throws a TypeError | carry the profile when one is loaded | high, not executed | Auth.AuthService.Login, Auth.BuildJwtPayload | Auth.AuthService.LoginCorrected, Auth.CorrectedPayloadRoundTrip |
| src/modules/auth/services/password.service.ts:152 | `updatePassword` sets the new hash on the loaded entity and never saves it. `resetPassword` does the same at line 93. | user u1 with hash of "old-secret", change to "new-secret": success is reported, the store still refuses "new-secret" | save the entity after `setPassword` | high, not executed | Passwords.PasswordService.UpdatePassword, Passwords.PasswordService.ResetPassword, Passwords.ChangeIsNotPersisted | Passwords.PasswordService.UpdatePasswordCorrected, Passwords.PasswordService.ResetPasswordCorrected |
